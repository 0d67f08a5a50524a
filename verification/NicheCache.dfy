/** A single-flight cache: concurrent callers of one niche share one expansion task, a failed
    task is forgotten so that a later call retries, and a successful one is kept for good.

    The class holds the three critical sections, each of which runs under the lock without
    awaiting; the transition system interleaves them with arrivals and task completions. */
module NicheCache {
  import opened Containers

  datatype Expansion = Expansion(keywords: seq<string>)

  datatype Status = Running | Succeeded(value: Expansion) | Failed

  /** An expansion task; its index in the task list is its identity. */
  datatype Task = Task(niche: string, status: Status)

  /** The dictionaries of the cache object. */
  datatype Tables = Tables(cache: map<string, Expansion>, inflight: map<string, nat>)

  // ----- The critical sections -------------------------------------------------------------

  datatype Lookup = Hit(value: Expansion) | Await(task: nat)

  /** First section: a cached value, else the task in flight, else the new task newTask. */
  function Entered(t: Tables, niche: string, newTask: nat): (Tables, Lookup) {
    if niche in t.cache then (t, Hit(t.cache[niche]))
    else if niche in t.inflight then (t, Await(t.inflight[niche]))
    else (t.(inflight := t.inflight[niche := newTask]), Await(newTask))
  }

  /** Forgets the task, unless a newer one has taken its place. */
  function Forgotten(t: Tables, niche: string, task: nat): Tables {
    if niche in t.inflight && t.inflight[niche] == task then t.(inflight := t.inflight - {niche}) else t
  }

  datatype Caller =
    | Calling(niche: string)
    | Waiting(niche: string, task: nat)
    | Returned(niche: string, value: Expansion)
    | Raising(niche: string)

  datatype System = System(tables: Tables, tasks: seq<Task>, callers: map<nat, Caller>)

  ghost predicate Enter(s: System, s': System, c: nat) {
    && c in s.callers && s.callers[c].Calling?
    && (var niche := s.callers[c].niche;
        var (tables, found) := Entered(s.tables, niche, |s.tasks|);
        match found
        case Hit(v) => s' == s.(tables := tables, callers := s.callers[c := Returned(niche, v)])
        case Await(t) =>
          s' == System(tables, if t == |s.tasks| then s.tasks + [Task(niche, Running)] else s.tasks,
                       s.callers[c := Waiting(niche, t)]))
  }

  class NicheExpansionCache {
    var cache: map<string, Expansion>
    var inflight: map<string, nat>

    function View(): Tables
      reads this
    {
      Tables(cache, inflight)
    }

    constructor ()
      ensures View() == Tables(map[], map[])
    {
      cache, inflight := map[], map[];
    }

    method Enter(niche: string, newTask: nat) returns (r: Lookup)
      modifies this
      ensures (View(), r) == Entered(old(View()), niche, newTask)
    {
      if niche in cache { return Hit(cache[niche]); }
      var task := if niche in inflight then inflight[niche] else newTask;
      if niche !in inflight { inflight := inflight[niche := task]; }
      r := Await(task);
    }

    method AfterFailure(niche: string, task: nat)
      modifies this
      ensures View() == Forgotten(old(View()), niche, task)
    {
      if niche in inflight && inflight[niche] == task { inflight := inflight - {niche}; }
    }

    method AfterSuccess(niche: string, task: nat, expanded: Expansion)
      modifies this
      ensures View() == Forgotten(old(View()).(cache := old(View()).cache[niche := expanded]), niche, task)
    {
      cache := cache[niche := expanded];
      if niche in inflight && inflight[niche] == task { inflight := inflight - {niche}; }
    }
  }

  // ----- Concurrent callers ----------------------------------------------------------------

  ghost predicate Init(s: System) {
    s == System(Tables(map[], map[]), [], map[])
  }

  ghost predicate Arrive(s: System, s': System, c: nat, niche: string) {
    c !in s.callers && s' == s.(callers := s.callers[c := Calling(niche)])
  }

  ghost predicate Complete(s: System, s': System, t: nat, status: Status) {
    && t < |s.tasks| && s.tasks[t].status == Running && status != Running
    && s' == s.(tasks := s.tasks[t := s.tasks[t].(status := status)])
  }

  ghost predicate ResumeFailure(s: System, s': System, c: nat) {
    && c in s.callers && s.callers[c].Waiting?
    && (var w := s.callers[c];
        && w.task < |s.tasks| && s.tasks[w.task].status == Failed
        && s' == s.(tables := Forgotten(s.tables, w.niche, w.task), callers := s.callers[c := Raising(w.niche)]))
  }

  ghost predicate ResumeSuccess(s: System, s': System, c: nat) {
    && c in s.callers && s.callers[c].Waiting?
    && (var w := s.callers[c];
        && w.task < |s.tasks| && s.tasks[w.task].status.Succeeded?
        && (var v := s.tasks[w.task].status.value;
            s' == s.(tables := Forgotten(s.tables.(cache := s.tables.cache[w.niche := v]), w.niche, w.task),
                     callers := s.callers[c := Returned(w.niche, v)])))
  }

  ghost predicate Next(s: System, s': System) {
    || (exists c, niche :: Arrive(s, s', c, niche))
    || (exists c :: Enter(s, s', c))
    || (exists t, status :: Complete(s, s', t, status))
    || (exists c :: ResumeFailure(s, s', c))
    || (exists c :: ResumeSuccess(s, s', c))
  }

  ghost predicate Behaviour(trace: seq<System>) {
    && trace != [] && Init(trace[0])
    && (forall i, j :: 0 <= i && j == i + 1 < |trace| ==> Next(trace[i], trace[j]))
  }

  // ----- The invariant ---------------------------------------------------------------------

  ghost predicate TaskOk(s: System, t: nat)
    requires t < |s.tasks|
  {
    var n := s.tasks[t].niche;
    match s.tasks[t].status
    case Running => n in s.tables.inflight && s.tables.inflight[n] == t && n !in s.tables.cache
    case Succeeded(v) =>
      && (n in s.tables.inflight ==> s.tables.inflight[n] == t)
      && (n in s.tables.cache ==> s.tables.cache[n] == v)
      && (n in s.tables.cache || n in s.tables.inflight)
    case Failed => true
  }

  ghost predicate CallerOk(s: System, c: nat)
    requires c in s.callers
  {
    match s.callers[c]
    case Calling(_) => true
    case Waiting(n, t) => t < |s.tasks| && s.tasks[t].niche == n
    case Returned(n, v) => n in s.tables.cache && s.tables.cache[n] == v
    case Raising(_) => true
  }

  ghost predicate InflightOk(s: System, n: string)
    requires n in s.tables.inflight
  {
    s.tables.inflight[n] < |s.tasks| && s.tasks[s.tables.inflight[n]].niche == n
  }

  ghost predicate CacheOk(s: System, n: string)
    requires n in s.tables.cache
  {
    exists t :: 0 <= t < |s.tasks| && s.tasks[t] == Task(n, Succeeded(s.tables.cache[n]))
  }

  /** Of the tasks of one niche all but at most one have failed. */
  ghost predicate OneLive(s: System) {
    forall t, u :: 0 <= t < |s.tasks| && 0 <= u < |s.tasks| && s.tasks[t].niche == s.tasks[u].niche ==>
      (s.tasks[t].status != Failed && s.tasks[u].status != Failed ==> t == u)
  }

  ghost predicate Inv(s: System) {
    && (forall t :: 0 <= t < |s.tasks| ==> TaskOk(s, t))
    && (forall c :: c in s.callers ==> CallerOk(s, c))
    && (forall n :: n in s.tables.inflight ==> InflightOk(s, n))
    && (forall n :: n in s.tables.cache ==> CacheOk(s, n))
    && OneLive(s)
  }

  /** A niche with neither value nor task in flight has only failed tasks. */
  lemma IdleNiche(s: System, niche: string, t: nat)
    requires Inv(s) && niche !in s.tables.cache && niche !in s.tables.inflight
    requires t < |s.tasks| && s.tasks[t].niche == niche
    ensures s.tasks[t].status == Failed
  {
    hide CacheOk, InflightOk, CallerOk, OneLive;
    assert TaskOk(s, t);
  }

  lemma LaunchKeepsOneLive(s: System, niche: string, tasks: seq<Task>)
    requires Inv(s) && niche !in s.tables.cache && niche !in s.tables.inflight
    requires tasks == s.tasks + [Task(niche, Running)]
    ensures OneLive(s.(tasks := tasks))
  {
    hide CacheOk, InflightOk, CallerOk, TaskOk;
    forall t | 0 <= t < |s.tasks| && s.tasks[t].niche == niche ensures s.tasks[t].status == Failed {
      IdleNiche(s, niche, t);
    }
  }

  lemma EnterTables(s: System, s': System, c: nat)
    requires Inv(s) && Enter(s, s', c)
    ensures forall n :: n in s'.tables.cache ==> CacheOk(s', n)
    ensures forall n :: n in s'.tables.inflight ==> InflightOk(s', n)
  {
    hide TaskOk, CallerOk, OneLive;
    forall n | n in s'.tables.cache ensures CacheOk(s', n) {
      assert CacheOk(s, n);
      var t :| 0 <= t < |s.tasks| && s.tasks[t] == Task(n, Succeeded(s.tables.cache[n]));
      assert s'.tasks[t] == s.tasks[t];
    }
    forall n | n in s'.tables.inflight ensures InflightOk(s', n) {
      if n in s.tables.inflight { assert InflightOk(s, n); }
    }
  }

  lemma EnterInv(s: System, s': System, c: nat)
    requires Inv(s) && Enter(s, s', c)
    ensures Inv(s')
  {
    var niche := s.callers[c].niche;
    if niche !in s.tables.cache && niche !in s.tables.inflight {
      LaunchKeepsOneLive(s, niche, s'.tasks);
    }
    EnterTables(s, s', c);
    forall t | 0 <= t < |s'.tasks| ensures TaskOk(s', t) {
      if t < |s.tasks| { assert TaskOk(s, t); }
    }
    forall d | d in s'.callers ensures CallerOk(s', d) {
      if d in s.callers { assert CallerOk(s, d); }
    }
  }

  lemma CompleteInv(s: System, s': System, t: nat, status: Status)
    requires Inv(s) && Complete(s, s', t, status)
    ensures Inv(s')
  {
    assert TaskOk(s, t);
    forall u | 0 <= u < |s'.tasks| ensures TaskOk(s', u) {
      assert TaskOk(s, u);
    }
    forall n | n in s'.tables.cache ensures CacheOk(s', n) {
      assert CacheOk(s, n);
      var u :| 0 <= u < |s.tasks| && s.tasks[u] == Task(n, Succeeded(s.tables.cache[n]));
      assert s'.tasks[u] == s.tasks[u];
    }
    forall n | n in s'.tables.inflight ensures InflightOk(s', n) {
      assert InflightOk(s, n);
    }
    forall d | d in s'.callers ensures CallerOk(s', d) {
      assert CallerOk(s, d);
    }
  }

  lemma FailureInv(s: System, s': System, c: nat)
    requires Inv(s) && ResumeFailure(s, s', c)
    ensures Inv(s')
  {
    assert CallerOk(s, c);
    forall u | 0 <= u < |s'.tasks| ensures TaskOk(s', u) {
      assert TaskOk(s, u);
    }
    forall n | n in s'.tables.cache ensures CacheOk(s', n) {
      assert CacheOk(s, n);
    }
    forall n | n in s'.tables.inflight ensures InflightOk(s', n) {
      assert InflightOk(s, n);
    }
    forall d | d in s'.callers ensures CallerOk(s', d) {
      assert CallerOk(s, d);
    }
  }

  lemma SuccessInv(s: System, s': System, c: nat)
    requires Inv(s) && ResumeSuccess(s, s', c)
    ensures Inv(s')
  {
    var w := s.callers[c];
    assert CallerOk(s, c) && TaskOk(s, w.task);
    forall u | 0 <= u < |s'.tasks| ensures TaskOk(s', u) {
      assert TaskOk(s, u);
    }
    forall n | n in s'.tables.cache ensures CacheOk(s', n) {
      if n == w.niche {
        assert s'.tasks[w.task] == Task(n, Succeeded(s'.tables.cache[n]));
      } else {
        assert CacheOk(s, n);
      }
    }
    forall n | n in s'.tables.inflight ensures InflightOk(s', n) {
      assert InflightOk(s, n);
    }
    forall d | d in s'.callers ensures CallerOk(s', d) {
      assert CallerOk(s, d);
    }
  }

  lemma ArriveInv(s: System, s': System, c: nat, niche: string)
    requires Inv(s) && Arrive(s, s', c, niche)
    ensures Inv(s')
  {
    forall u | 0 <= u < |s'.tasks| ensures TaskOk(s', u) {
      assert TaskOk(s, u);
    }
    forall n | n in s'.tables.cache ensures CacheOk(s', n) {
      assert CacheOk(s, n);
    }
    forall n | n in s'.tables.inflight ensures InflightOk(s', n) {
      assert InflightOk(s, n);
    }
    forall d | d in s'.callers ensures CallerOk(s', d) {
      if d != c { assert CallerOk(s, d); }
    }
  }

  lemma NextInv(s: System, s': System)
    requires Inv(s) && Next(s, s')
    ensures Inv(s')
  {
    hide Inv, Arrive, Enter, Complete, ResumeFailure, ResumeSuccess;
    if c, niche :| Arrive(s, s', c, niche) {
      ArriveInv(s, s', c, niche);
    } else if c :| Enter(s, s', c) {
      EnterInv(s, s', c);
    } else if t, status :| Complete(s, s', t, status) {
      CompleteInv(s, s', t, status);
    } else if c :| ResumeFailure(s, s', c) {
      FailureInv(s, s', c);
    } else if c :| ResumeSuccess(s, s', c) {
      SuccessInv(s, s', c);
    }
  }

  lemma {:induction false} BehaviourInv(trace: seq<System>)
    requires Behaviour(trace)
    ensures Inv(Last(trace))
    decreases |trace|
  {
    hide Next;
    if |trace| > 1 {
      BehaviourInv(Front(trace));
      NextInv(trace[|trace| - 2], trace[|trace| - 1]);
    }
  }

  // ----- Main results ----------------------------------------------------------------------

  /** In every reachable state a niche has at most one task that is unfinished or succeeded:
      so at most one in flight, at most one ever succeeding, and none launched after it. */
  lemma SingleFlight(trace: seq<System>, t: nat, u: nat)
    requires Behaviour(trace)
    requires t < |Last(trace).tasks| && u < |Last(trace).tasks|
    requires Last(trace).tasks[t].niche == Last(trace).tasks[u].niche
    requires Last(trace).tasks[t].status != Failed && Last(trace).tasks[u].status != Failed
    ensures t == u
  {
    BehaviourInv(trace);
  }

  /** All successful calls for a niche return the value of its one successful task. */
  lemma CallersAgree(trace: seq<System>, c: nat, d: nat)
    requires Behaviour(trace)
    requires c in Last(trace).callers && d in Last(trace).callers
    requires Last(trace).callers[c].Returned? && Last(trace).callers[d].Returned?
    requires Last(trace).callers[c].niche == Last(trace).callers[d].niche
    ensures Last(trace).callers[c].value == Last(trace).callers[d].value
    ensures exists t :: 0 <= t < |Last(trace).tasks|
              && Last(trace).tasks[t] == Task(Last(trace).callers[c].niche, Succeeded(Last(trace).callers[c].value))
  {
    BehaviourInv(trace);
    var s := Last(trace);
    assert CallerOk(s, c) && CallerOk(s, d) && CacheOk(s, s.callers[c].niche);
  }

  lemma StepKeepsRunning(s: System, s': System, n: string)
    requires Inv(s) && Next(s, s') && n in s.tables.inflight
    ensures var t := s.tables.inflight[n];
            && t < |s.tasks|
            && (s.tasks[t].status == Running ==> n in s'.tables.inflight && s'.tables.inflight[n] == t)
            && (n in s'.tables.inflight ==> s'.tables.inflight[n] == t)
  {
    hide TaskOk, CacheOk, OneLive;
    assert InflightOk(s, n);
    if c, niche :| Arrive(s, s', c, niche) {
    } else if c :| Enter(s, s', c) {
    } else if t, status :| Complete(s, s', t, status) {
    } else if c :| ResumeFailure(s, s', c) {
      assert CallerOk(s, c);
    } else if c :| ResumeSuccess(s, s', c) {
      assert CallerOk(s, c);
    }
  }

  /** No step makes the cache forget a task that is still running: a waiter on an old failed
      task never evicts the one that replaced it. */
  lemma NeverEvictsRunning(trace: seq<System>, s': System, n: string)
    requires Behaviour(trace) && Next(Last(trace), s')
    requires n in Last(trace).tables.inflight
    ensures var t := Last(trace).tables.inflight[n];
            && t < |Last(trace).tasks|
            && (Last(trace).tasks[t].status == Running ==> n in s'.tables.inflight && s'.tables.inflight[n] == t)
            && (n in s'.tables.inflight ==> s'.tables.inflight[n] == t)
  {
    hide Inv, Next;
    BehaviourInv(trace);
    StepKeepsRunning(Last(trace), s', n);
  }

  /** Retry: once a waiter has cleaned up after a failed task, a niche without a value is either
      being expanded by a different task or will be expanded afresh by the next call. */
  lemma FailureAllowsRetry(trace: seq<System>, s': System, c: nat, s'': System, d: nat)
    requires Behaviour(trace) && ResumeFailure(Last(trace), s', c)
    requires Enter(s', s'', d) && s'.callers[d].niche == Last(trace).callers[c].niche
    ensures var n, failed := Last(trace).callers[c].niche, Last(trace).callers[c].task;
            match s''.callers[d]
            case Waiting(_, t) => t != failed && (t == |s'.tasks| ==> s''.tasks[t] == Task(n, Running))
            case Returned(_, v) => n in s'.tables.cache && s'.tables.cache[n] == v
            case _ => false
  {
    hide Behaviour;
    BehaviourInv(trace);
  }

  /** Nobody is stuck: a caller that has not looked yet can look, a running task can end either way, and
      whoever waits for a finished task gets its value, or its failure. */
  lemma NobodyIsStuck(trace: seq<System>, c: nat, status: Status)
    requires Behaviour(trace) && c in Last(trace).callers && status != Running
    ensures var s := Last(trace);
            match s.callers[c]
            case Calling(_) => exists s' :: Enter(s, s', c)
            case Waiting(n, t) =>
              t < |s.tasks|
              && (match s.tasks[t].status
                  case Running => exists s' :: Complete(s, s', t, status)
                  case Failed => exists s' :: ResumeFailure(s, s', c) && s'.callers[c] == Raising(n)
                  case Succeeded(v) => exists s' :: ResumeSuccess(s, s', c) && s'.callers[c] == Returned(n, v))
            case _ => true
  {
    hide TaskOk, InflightOk, CacheOk, OneLive;
    BehaviourInv(trace);
    var s := Last(trace);
    assert CallerOk(s, c);
    match s.callers[c] {
      case Calling(niche) =>
        var (tables, found) := Entered(s.tables, niche, |s.tasks|);
        var s' :=
          match found
          case Hit(v) => s.(tables := tables, callers := s.callers[c := Returned(niche, v)])
          case Await(t) =>
            System(tables, if t == |s.tasks| then s.tasks + [Task(niche, Running)] else s.tasks,
                   s.callers[c := Waiting(niche, t)]);
        assert Enter(s, s', c);
      case Waiting(n, t) =>
        match s.tasks[t].status {
          case Running =>
            assert Complete(s, s.(tasks := s.tasks[t := s.tasks[t].(status := status)]), t, status);
          case Failed =>
            assert ResumeFailure(
              s, s.(tables := Forgotten(s.tables, n, t), callers := s.callers[c := Raising(n)]), c);
          case Succeeded(v) =>
            assert ResumeSuccess(
              s, s.(tables := Forgotten(s.tables.(cache := s.tables.cache[n := v]), n, t),
                    callers := s.callers[c := Returned(n, v)]), c);
        }
      case _ =>
    }
  }
}

/** What finishing a whole list of tasks, in any order, leaves in the execution state. */
module Replay {
  import opened Containers
  import opened CollectionTypes
  import opened ExecutionState
  import opened TaskGraph

  /** The fixed outcome of every task of a run. */
  type Outcomes = CollectionTask -> Outcome

  function RecordAll(d: Data, log: seq<CollectionTask>, outcomes: Outcomes): Data {
    if log == [] then d
    else Recorded(RecordAll(d, Front(log), outcomes), Last(log), outcomes(Last(log)))
  }

  // ----- Lookups ---------------------------------------------------------------------------

  function Find<V>(m: map<string, V>, id: string): Option<V> {
    if id in m then Some(m[id]) else None
  }

  /** Everything the state's dictionaries say about one task id. */
  datatype Entry = Entry(
    result: Option<seq<Row>>,
    cost: Option<real>,
    category: Option<TaskType>,
    metro: Option<string>,
    payload: Option<Payload>)

  function Look(d: Data, id: string): Entry {
    Entry(Find(d.results.vals, id), Find(d.costs.vals, id), Find(d.categories.vals, id), Find(d.metros, id),
        Find(d.payloads, id))
  }

  const NO_ENTRY := Entry(None, None, None, None, None)

  /** What one outcome leaves about a task whose id is new. */
  function EntryOf(t: CollectionTask, o: Outcome): Entry {
    match o
    case OkResponse(body, cost) =>
      Entry(Some(Rows(body)), Some(cost), Some(t.taskType), Some(t.metroId), Some(t.payload))
    case ErrorResponse(_) => Entry(None, None, Some(t.taskType), Some(t.metroId), Some(t.payload))
    case _ => NO_ENTRY
  }

  /** None of the ids of the log is known to the state yet. */
  ghost predicate Fresh(d: Data, log: seq<CollectionTask>) {
    forall t :: t in log ==> Look(d, t.taskId) == NO_ENTRY
  }

  ghost predicate WellFormed(d: Data) {
    && d.results.Valid() && d.costs.Valid() && d.categories.Valid()
    && d.totalApiCalls == |d.categories.keys|
  }

  lemma RecordedLook(d: Data, t: CollectionTask, o: Outcome, id: string)
    requires Look(d, t.taskId) == NO_ENTRY
    ensures Look(Recorded(d, t, o), id) == if id == t.taskId then EntryOf(t, o) else Look(d, id)
  {
    hide Rows, FailuresOf;
  }

  lemma RecordedWellFormed(d: Data, t: CollectionTask, o: Outcome)
    requires WellFormed(d) && Look(d, t.taskId) == NO_ENTRY
    ensures WellFormed(Recorded(d, t, o))
  {
    hide Rows, FailuresOf;
  }

  lemma FrontIds(log: seq<CollectionTask>)
    requires UniqueIds(log) && log != []
    ensures UniqueIds(Front(log))
    ensures forall t :: t in Front(log) ==> t.taskId != Last(log).taskId
  {
  }

  lemma RecordedSeen(d: Data, t: CollectionTask, o: Outcome)
    ensures Recorded(d, t, o).seen == d.seen
  {
    hide Rows, FailuresOf;
  }

  /** Recording a list of tasks with distinct new ids writes each task's own entry, keeps every
      other one, and keeps the call counter equal to the number of recorded categories. */
  lemma {:induction false} RecordAllLook(d: Data, log: seq<CollectionTask>, outcomes: Outcomes, id: string)
    requires UniqueIds(log) && Fresh(d, log) && WellFormed(d)
    ensures WellFormed(RecordAll(d, log, outcomes))
    ensures forall t :: t in log && t.taskId == id ==> Look(RecordAll(d, log, outcomes), id) == EntryOf(t, outcomes(t))
    ensures (forall t :: t in log ==> t.taskId != id) ==> Look(RecordAll(d, log, outcomes), id) == Look(d, id)
    ensures RecordAll(d, log, outcomes).seen == d.seen
  {
    hide Look, WellFormed, Rows, EntryOf, Recorded, Ids;
    if log != [] {
      var front, last := Front(log), Last(log);
      assert log == front + [last];
      RecordAllLook(d, front, outcomes, id);
      RecordAllLook(d, front, outcomes, last.taskId);
      FrontIds(log);
      var before := RecordAll(d, front, outcomes);
      assert last in log;
      assert Look(before, last.taskId) == NO_ENTRY;
      RecordedLook(before, last, outcomes(last), id);
      RecordedWellFormed(before, last, outcomes(last));
      RecordedSeen(before, last, outcomes(last));
    }
  }

  // ----- Failures and calls ----------------------------------------------------------------

  function FailureScan(outcomes: Outcomes): CollectionTask -> seq<FailureRecord> {
    (t: CollectionTask) => FailuresOf(t, outcomes(t))
  }

  function AnsweredScan(outcomes: Outcomes): CollectionTask -> bool {
    (t: CollectionTask) => Answered(outcomes(t))
  }

  lemma RecordedTotals(d: Data, t: CollectionTask, o: Outcome)
    ensures Recorded(d, t, o).failures == d.failures + FailuresOf(t, o)
    ensures Recorded(d, t, o).totalApiCalls == d.totalApiCalls + if Answered(o) then 1 else 0
  {
    hide FailuresOf, Rows;
  }

  lemma {:induction false} RecordAllTotals(d: Data, log: seq<CollectionTask>, outcomes: Outcomes)
    ensures RecordAll(d, log, outcomes).failures == d.failures + Flat(FailureScan(outcomes), log)
    ensures RecordAll(d, log, outcomes).totalApiCalls == d.totalApiCalls + |Filter(AnsweredScan(outcomes), log)|
  {
    hide FailuresOf, Rows, Recorded, Answered;
    if log != [] {
      RecordAllTotals(d, Front(log), outcomes);
      RecordedTotals(RecordAll(d, Front(log), outcomes), Last(log), outcomes(Last(log)));
    }
  }

  // ----- Equivalence up to completion order ------------------------------------------------

  /** Same dictionaries, same counter, same keys, same multiset of failures. */
  ghost predicate Equivalent(d: Data, e: Data) {
    && d.results.vals == e.results.vals && d.costs.vals == e.costs.vals && d.categories.vals == e.categories.vals
    && d.metros == e.metros && d.payloads == e.payloads
    && d.totalApiCalls == e.totalApiCalls && d.seen == e.seen
    && IsPermutation(d.failures, e.failures)
    && IsPermutation(d.categories.keys, e.categories.keys)
    && IsPermutation(d.results.keys, e.results.keys)
    && IsPermutation(d.costs.keys, e.costs.keys)
  }

  lemma SameFinds<V>(m: map<string, V>, n: map<string, V>)
    requires forall id :: Find(m, id) == Find(n, id)
    ensures m == n
  {
    forall id ensures id in m <==> id in n {
      assert Find(m, id) == Find(n, id);
    }
    forall id | id in m ensures m[id] == n[id] {
      assert Find(m, id) == Find(n, id);
    }
  }

  lemma SameLooks(d: Data, e: Data)
    requires forall id :: Look(d, id) == Look(e, id)
    ensures d.results.vals == e.results.vals && d.costs.vals == e.costs.vals && d.categories.vals == e.categories.vals
    ensures d.metros == e.metros && d.payloads == e.payloads
  {
    forall id
      ensures Find(d.results.vals, id) == Find(e.results.vals, id) && Find(d.costs.vals, id) == Find(e.costs.vals, id)
      ensures Find(d.categories.vals, id) == Find(e.categories.vals, id)
      ensures Find(d.metros, id) == Find(e.metros, id) && Find(d.payloads, id) == Find(e.payloads, id)
    {
      assert Look(d, id) == Look(e, id);
    }
    SameFinds(d.results.vals, e.results.vals);
    SameFinds(d.costs.vals, e.costs.vals);
    SameFinds(d.categories.vals, e.categories.vals);
    SameFinds(d.metros, e.metros);
    SameFinds(d.payloads, e.payloads);
  }

  lemma EquivalentLook(d: Data, e: Data, id: string)
    requires Equivalent(d, e)
    ensures Look(d, id) == Look(e, id)
  {
  }

  lemma UniqueIdsPermutation(a: seq<CollectionTask>, b: seq<CollectionTask>)
    requires UniqueIds(a) && IsPermutation(a, b)
    ensures UniqueIds(b)
  {
    DistinctPermutation(a, b);
    PermutationLength(a, b);
    forall i, j | 0 <= i < j < |b| ensures b[i].taskId != b[j].taskId {
      assert b[i] in a && b[j] in a;
    }
  }

  lemma FreshFor(d: Data, e: Data, a: seq<CollectionTask>, b: seq<CollectionTask>)
    requires Equivalent(d, e) && IsPermutation(a, b) && Fresh(d, a)
    ensures Fresh(e, b)
  {
    hide Look, Equivalent;
    PermutationLength(a, b);
    forall t | t in b ensures Look(e, t.taskId) == NO_ENTRY {
      EquivalentLook(d, e, t.taskId);
    }
  }

  lemma SameEntry(d: Data, e: Data, a: seq<CollectionTask>, b: seq<CollectionTask>, outcomes: Outcomes, id: string)
    requires WellFormed(d) && WellFormed(e) && Equivalent(d, e)
    requires UniqueIds(a) && UniqueIds(b) && IsPermutation(a, b) && Fresh(d, a) && Fresh(e, b)
    ensures Look(RecordAll(d, a, outcomes), id) == Look(RecordAll(e, b, outcomes), id)
  {
    hide Look, WellFormed, EntryOf, Equivalent, UniqueIds, Fresh, RecordAll;
    PermutationLength(a, b);
    RecordAllLook(d, a, outcomes, id);
    RecordAllLook(e, b, outcomes, id);
    EquivalentLook(d, e, id);
    if exists t :: t in a && t.taskId == id {
      var t :| t in a && t.taskId == id;
      assert t in b;
    }
  }

  lemma SameTotals(d: Data, e: Data, a: seq<CollectionTask>, b: seq<CollectionTask>, outcomes: Outcomes)
    requires Equivalent(d, e) && IsPermutation(a, b)
    requires var d', e' := RecordAll(d, a, outcomes), RecordAll(e, b, outcomes);
             && WellFormed(d') && WellFormed(e') && d'.seen == e'.seen
             && d'.results.vals == e'.results.vals && d'.costs.vals == e'.costs.vals
             && d'.categories.vals == e'.categories.vals
             && d'.metros == e'.metros && d'.payloads == e'.payloads
    ensures Equivalent(RecordAll(d, a, outcomes), RecordAll(e, b, outcomes))
  {
    hide AnsweredScan, FailureScan;
    RecordAllTotals(d, a, outcomes);
    RecordAllTotals(e, b, outcomes);
    FlatPermutation(FailureScan(outcomes), a, b);
    FilterPermutation(AnsweredScan(outcomes), a, b);
    PermutationLength(Filter(AnsweredScan(outcomes), a), Filter(AnsweredScan(outcomes), b));
    var d', e' := RecordAll(d, a, outcomes), RecordAll(e, b, outcomes);
    SameElements(d'.categories.keys, e'.categories.keys);
    SameElements(d'.results.keys, e'.results.keys);
    SameElements(d'.costs.keys, e'.costs.keys);
  }

  /** Finishing the same tasks in two different orders from equivalent states leads to
      equivalent states. */
  lemma RecordAllConfluent(d: Data, e: Data, a: seq<CollectionTask>, b: seq<CollectionTask>, outcomes: Outcomes)
    requires WellFormed(d) && WellFormed(e) && Equivalent(d, e)
    requires UniqueIds(a) && IsPermutation(a, b) && Fresh(d, a)
    ensures Equivalent(RecordAll(d, a, outcomes), RecordAll(e, b, outcomes))
  {
    hide Look, WellFormed, UniqueIds, Fresh, RecordAll, IsPermutation;
    UniqueIdsPermutation(a, b);
    FreshFor(d, e, a, b);
    var d', e' := RecordAll(d, a, outcomes), RecordAll(e, b, outcomes);
    forall id ensures Look(d', id) == Look(e', id) {
      SameEntry(d, e, a, b, outcomes, id);
    }
    SameLooks(d', e');
    RecordAllLook(d, a, outcomes, "");
    RecordAllLook(e, b, outcomes, "");
    SameTotals(d, e, a, b, outcomes);
  }

  // ----- Conservation ----------------------------------------------------------------------

  function IsFailureOf(id: string): FailureRecord -> bool {
    (f: FailureRecord) => f.taskId == id
  }

  lemma OwnFailures(t: CollectionTask, o: Outcome, id: string)
    ensures Filter(IsFailureOf(id), FailuresOf(t, o)) == if t.taskId == id then FailuresOf(t, o) else []
  {
    hide TimeoutMessage;
    var fs := FailuresOf(t, o);
    if fs != [] {
      assert Front(fs) == [] && Last(fs) == fs[0];
    }
  }

  lemma {:induction false} FailuresOfOne(log: seq<CollectionTask>, outcomes: Outcomes, id: string)
    requires UniqueIds(log)
    ensures forall t :: t in log && t.taskId == id ==>
              Filter(IsFailureOf(id), Flat(FailureScan(outcomes), log)) == FailuresOf(t, outcomes(t))
    ensures (forall t :: t in log ==> t.taskId != id) ==>
        Filter(IsFailureOf(id), Flat(FailureScan(outcomes), log)) == []
  {
    hide Flat;
    assert Flat(FailureScan(outcomes), []) == [] by { FlatNone(FailureScan(outcomes)); }
    if log != [] {
      var front, last := Front(log), Last(log);
      assert log == front + [last];
      FailuresOfOne(front, outcomes, id);
      FrontIds(log);
      assert log == Front(log) + [Last(log)];
      FlatSnoc(FailureScan(outcomes), Front(log), Last(log));
      FilterConcat(IsFailureOf(id), Flat(FailureScan(outcomes), front), FailuresOf(last, outcomes(last)));
      OwnFailures(last, outcomes(last), id);
    }
  }

  /** Each finished task ends in exactly one of the results or one failure record. */
  lemma ExactlyOneFate(d: Data, log: seq<CollectionTask>, outcomes: Outcomes, t: CollectionTask)
    requires UniqueIds(log) && Fresh(d, log) && WellFormed(d) && t in log
    requires Filter(IsFailureOf(t.taskId), d.failures) == []
    ensures var d' := RecordAll(d, log, outcomes);
            var failures := Filter(IsFailureOf(t.taskId), d'.failures);
            if t.taskId in d'.results.vals then failures == [] else |failures| == 1
  {
    hide WellFormed, Rows;
    RecordAllLook(d, log, outcomes, t.taskId);
    RecordAllTotals(d, log, outcomes);
    FailuresOfOne(log, outcomes, t.taskId);
    FilterConcat(IsFailureOf(t.taskId), d.failures, Flat(FailureScan(outcomes), log));
    assert Look(RecordAll(d, log, outcomes), t.taskId) == EntryOf(t, outcomes(t));
  }
}

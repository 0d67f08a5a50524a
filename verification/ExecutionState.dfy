/** The mutable state of a run and how one finished task is recorded in it. */
module ExecutionState {
  import opened Containers
  import opened CollectionTypes

  const M5_LIVE_TASK_TIMEOUT := "12.0"
  const M5_QUEUED_TASK_TIMEOUT := "20.0"

  /** One entry of a response body; entries that are not objects are dropped. */
  datatype Datum = RowDatum(row: Row) | OtherDatum

  datatype ResponseData = Many(data: seq<Datum>) | One(datum: Datum)

  /** What dispatching one task came to. */
  datatype Outcome =
    | TimedOut
    | Failed(exception: string)
    | ErrorResponse(error: string)
    | OkResponse(body: ResponseData, cost: real)

  /** Whether the provider answered at all, successfully or not. */
  predicate Answered(o: Outcome) {
    o.ErrorResponse? || o.OkResponse?
  }

  function RowsOf(data: seq<Datum>): seq<Row> {
    if data == [] then []
    else RowsOf(Front(data)) + match Last(data) { case RowDatum(r) => [r] case OtherDatum => [] }
  }

  function Rows(body: ResponseData): seq<Row> {
    match body
    case Many(data) => RowsOf(data)
    case One(d) => RowsOf([d])
  }

  function TimeoutMessage(t: TaskType): string {
    "provider task timed out after "
    + (if t in {KeywordVolume, GoogleReviews} then M5_QUEUED_TASK_TIMEOUT else M5_LIVE_TASK_TIMEOUT)
    + "s"
  }

  function Failure(task: CollectionTask, message: string): FailureRecord {
    FailureRecord(task.taskId, task.taskType, task.metroId, message, true)
  }

  /** The failure records one outcome adds: none or one. */
  function FailuresOf(task: CollectionTask, o: Outcome): seq<FailureRecord> {
    match o
    case TimedOut => [Failure(task, TimeoutMessage(task.taskType))]
    case Failed(e) => [Failure(task, e)]
    case ErrorResponse(e) => [Failure(task, if e == "" then "unknown API error" else e)]
    case OkResponse(_, _) => []
  }

  /** The contents of an execution state. */
  datatype Data = Data(
    results: Dict<string, seq<Row>>,
    costs: Dict<string, real>,
    categories: Dict<string, TaskType>,
    metros: map<string, string>,
    payloads: map<string, Payload>,
    totalApiCalls: nat,
    failures: seq<FailureRecord>,
    seen: set<string>)

  function InitialData(): Data {
    Data(EmptyDict(), EmptyDict(), EmptyDict(), map[], map[], 0, [], {})
  }

  /** The bookkeeping of any answer, successful or not. */
  function Counted(d: Data, task: CollectionTask): Data {
    d.(totalApiCalls := d.totalApiCalls + 1,
       categories := d.categories.Put(task.taskId, task.taskType),
       metros := d.metros[task.taskId := task.metroId],
       payloads := d.payloads[task.taskId := task.payload])
  }

  /** The state after one task is finished with the given outcome. */
  function Recorded(d: Data, task: CollectionTask, o: Outcome): Data {
    var answered := if Answered(o) then Counted(d, task) else d;
    var failed := answered.(failures := d.failures + FailuresOf(task, o));
    match o
    case OkResponse(body, cost) =>
      failed.(results := d.results.Put(task.taskId, Rows(body)), costs := d.costs.Put(task.taskId, cost))
    case _ => failed
  }

  // ----- What one finished task changes ----------------------------------------------------

  /** rows lists the objects at the given positions of data, which are in order and are all of them. */
  ghost predicate KeepsObjects(data: seq<Datum>, rows: seq<Row>, positions: seq<int>) {
    && |positions| == |rows|
    && (forall a, b :: 0 <= a < b < |positions| ==> positions[a] < positions[b])
    && (forall a :: 0 <= a < |positions| ==> 0 <= positions[a] < |data| && data[positions[a]] == RowDatum(rows[a]))
    && (forall i :: 0 <= i < |data| && data[i].RowDatum? ==> i in positions)
  }

  /** The rows that storing a response body should leave: its objects, in order, as often as they occur. */
  ghost predicate Stores(body: ResponseData, rows: seq<Row>) {
    match body
    case One(RowDatum(r)) => rows == [r]
    case One(OtherDatum) => rows == []
    case Many(data) =>
      && (exists positions :: KeepsObjects(data, rows, positions))
      && (forall r :: multiset(rows)[r] == multiset(data)[RowDatum(r)])
  }

  lemma KeepsObjectsSnoc(data: seq<Datum>, last: Datum, rows: seq<Row>, positions: seq<int>)
    requires KeepsObjects(data, rows, positions)
    ensures last.RowDatum? ==> KeepsObjects(data + [last], rows + [last.row], positions + [|data|])
    ensures last.OtherDatum? ==> KeepsObjects(data + [last], rows, positions)
  {
  }

  lemma {:induction false} ObjectPositions(data: seq<Datum>) returns (positions: seq<int>)
    ensures KeepsObjects(data, RowsOf(data), positions)
  {
    positions := [];
    if data != [] {
      hide KeepsObjects;
      var front, last := Front(data), Last(data);
      assert data == front + [last];
      positions := ObjectPositions(front);
      KeepsObjectsSnoc(front, last, RowsOf(front), positions);
      if last.RowDatum? {
        positions := positions + [|front|];
      } else {
        assert RowsOf(data) == RowsOf(front);
      }
    }
  }

  lemma {:induction false} ObjectCounts(data: seq<Datum>, r: Row)
    ensures multiset(RowsOf(data))[r] == multiset(data)[RowDatum(r)]
  {
    if data != [] {
      var front, last := Front(data), Last(data);
      assert data == front + [last];
      ObjectCounts(front, r);
      assert multiset(data)[RowDatum(r)] == multiset(front)[RowDatum(r)] + multiset{last}[RowDatum(r)];
    }
  }

  /** A response leaves exactly its objects. */
  lemma RowsAreTheObjects(body: ResponseData)
    ensures Stores(body, Rows(body))
  {
    match body
    case One(datum) =>
      assert Front([datum]) == [] && Last([datum]) == datum && RowsOf([]) == [];
      assert RowsOf([datum]) == if datum.RowDatum? then [datum.row] else [];
    case Many(data) =>
      var positions := ObjectPositions(data);
      forall r ensures multiset(RowsOf(data))[r] == multiset(data)[RowDatum(r)] {
        ObjectCounts(data, r);
      }
  }

  /** A retryable failure record of the task. */
  ghost predicate IsFailureFor(f: FailureRecord, task: CollectionTask, message: string) {
    && f.taskId == task.taskId && f.taskType == task.taskType && f.metroId == task.metroId
    && f.message == message && f.isRetryable
  }

  /** The provider did not answer, or not successfully: one more failure, nothing stored. */
  ghost predicate OneFailureMore(d: Data, e: Data, task: CollectionTask, message: string) {
    && e.results == d.results && e.costs == d.costs
    && |e.failures| == |d.failures| + 1 && e.failures[..|d.failures|] == d.failures
    && IsFailureFor(e.failures[|d.failures|], task, message)
  }

  /** Whether the call counts, and what the state remembers about an answered task. */
  ghost predicate CallCounted(d: Data, e: Data, task: CollectionTask, answered: bool) {
    if answered then
      && e.totalApiCalls == d.totalApiCalls + 1
      && e.categories.vals == d.categories.vals[task.taskId := task.taskType]
      && e.categories.keys == d.categories.keys + (if task.taskId in d.categories.vals then [] else [task.taskId])
      && e.metros == d.metros[task.taskId := task.metroId]
      && e.payloads == d.payloads[task.taskId := task.payload]
    else
      && e.totalApiCalls == d.totalApiCalls && e.categories == d.categories
      && e.metros == d.metros && e.payloads == d.payloads
  }

  ghost predicate ResultStored(d: Data, e: Data, id: string, body: ResponseData, cost: real) {
    && e.failures == d.failures && e.costs.vals == d.costs.vals[id := cost]
    && id in e.results.vals && Stores(body, e.results.vals[id])
    && e.results.vals == d.results.vals[id := e.results.vals[id]]
  }

  /** How the state changes when the task ends with the outcome, dictionary by dictionary. */
  ghost predicate Finished(d: Data, e: Data, task: CollectionTask, o: Outcome) {
    && e.seen == d.seen
    && CallCounted(d, e, task, !o.TimedOut? && !o.Failed?)
    && match o
       case TimedOut => OneFailureMore(d, e, task, TimeoutMessage(task.taskType))
       case Failed(exception) => OneFailureMore(d, e, task, exception)
       case ErrorResponse(error) => OneFailureMore(d, e, task, if error != "" then error else "unknown API error")
       case OkResponse(body, cost) => ResultStored(d, e, task.taskId, body, cost)
  }

  lemma RecordedIsFinished(d: Data, task: CollectionTask, o: Outcome)
    ensures Finished(d, Recorded(d, task, o), task, o)
  {
    hide TimeoutMessage, Stores;
    if o.OkResponse? {
      RowsAreTheObjects(o.body);
      assert Recorded(d, task, o).failures == d.failures;
    }
  }

  /** Keyword volumes and reviews wait in a queue, so they get the longer timeout. */
  lemma TimeoutMeaning(t: TaskType)
    ensures TimeoutMessage(t)
         == "provider task timed out after "
            + (if t == KeywordVolume || t == GoogleReviews then "20.0" else "12.0") + "s"
  {
  }

  class State {
    var taskResults: Dict<string, seq<Row>>
    var taskCosts: Dict<string, real>
    var taskCategories: Dict<string, TaskType>
    var taskMetros: map<string, string>
    var taskPayloads: map<string, Payload>
    var totalApiCalls: nat
    var failures: seq<FailureRecord>
    var seenDedupKeys: set<string>

    function View(): Data
      reads this
    {
      Data(taskResults, taskCosts, taskCategories, taskMetros, taskPayloads, totalApiCalls, failures, seenDedupKeys)
    }

    constructor ()
      ensures View() == InitialData()
    {
      taskResults, taskCosts, taskCategories := EmptyDict(), EmptyDict(), EmptyDict();
      taskMetros, taskPayloads, totalApiCalls, failures, seenDedupKeys := map[], map[], 0, [], {};
    }

    method RecordAnswer(task: CollectionTask)
      modifies this
      ensures View() == Counted(old(View()), task)
    {
      totalApiCalls := totalApiCalls + 1;
      taskCategories := taskCategories.Put(task.taskId, task.taskType);
      taskMetros := taskMetros[task.taskId := task.metroId];
      taskPayloads := taskPayloads[task.taskId := task.payload];
    }

    /** The part of a task run that follows the awaited dispatch; no other task runs inside it. */
    method FinishTask(task: CollectionTask, outcome: Outcome)
      modifies this
      ensures View() == Recorded(old(View()), task, outcome)
      ensures Finished(old(View()), View(), task, outcome)
    {
      hide TimeoutMessage, Rows, Finished;
      ghost var d := View();
      RecordedIsFinished(d, task, outcome);
      match outcome {
        case TimedOut =>
          failures := failures + [Failure(task, TimeoutMessage(task.taskType))];
        case Failed(e) =>
          failures := failures + [Failure(task, e)];
        case ErrorResponse(e) =>
          RecordAnswer(task);
          failures := failures + [Failure(task, if e == "" then "unknown API error" else e)];
        case OkResponse(body, cost) =>
          RecordAnswer(task);
          assert d.failures + FailuresOf(task, outcome) == failures;
          taskResults := taskResults.Put(task.taskId, Rows(body));
          taskCosts := taskCosts.Put(task.taskId, cost);
      }
    }
  }
}

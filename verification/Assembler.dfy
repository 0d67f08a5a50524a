/** Redistribution of task results into per-metro, per-category buckets. */
module Assembler {
  import opened Containers
  import opened CollectionTypes
  import opened ExecutionState

  const PROVENANCE_FIELDS := [
    "cid", "place_id", "business_name", "source_query", "preferred_identifier_mode",
    "review_retrieval_mode", "gbp_retrieval_mode", "location_code"]

  datatype MetroResult = MetroResult(
    metroId: string,
    serpOrganic: seq<Row>,
    serpMaps: seq<Row>,
    keywordVolume: seq<Row>,
    businessListings: seq<Row>,
    googleReviews: seq<Row>,
    gbpInfo: seq<Row>,
    backlinks: seq<Row>,
    lighthouse: seq<Row>)

  /** totalCost is the sum before it is rounded to six decimals. */
  datatype RunMetadata = RunMetadata(totalApiCalls: nat, totalCost: real, errors: seq<FailureRecord>)

  datatype RawCollectionResult = RawCollectionResult(metros: map<string, MetroResult>, meta: RunMetadata)

  function EmptyMetroResult(metroId: string): MetroResult {
    MetroResult(metroId, [], [], [], [], [], [], [], [])
  }

  function Bucket(m: MetroResult, category: TaskType): seq<Row> {
    match category
    case KeywordVolume => m.keywordVolume
    case SerpOrganic => m.serpOrganic
    case SerpMaps => m.serpMaps
    case BusinessListings => m.businessListings
    case GoogleReviews => m.googleReviews
    case GbpInfo => m.gbpInfo
    case Backlinks => m.backlinks
    case Lighthouse => m.lighthouse
  }

  /** Appending touches the named bucket only. */
  function AppendCategory(m: MetroResult, category: TaskType, rows: seq<Row>): (r: MetroResult)
    ensures r.metroId == m.metroId
    ensures forall c :: Bucket(r, c) == Bucket(m, c) + if c == category then rows else []
  {
    match category
    case KeywordVolume => m.(keywordVolume := m.keywordVolume + rows)
    case SerpOrganic => m.(serpOrganic := m.serpOrganic + rows)
    case SerpMaps => m.(serpMaps := m.serpMaps + rows)
    case BusinessListings => m.(businessListings := m.businessListings + rows)
    case GoogleReviews => m.(googleReviews := m.googleReviews + rows)
    case GbpInfo => m.(gbpInfo := m.gbpInfo + rows)
    case Backlinks => m.(backlinks := m.backlinks + rows)
    case Lighthouse => m.(lighthouse := m.lighthouse + rows)
  }

  // ----- Provenance ------------------------------------------------------------------------

  predicate Blank(v: Value) {
    v == Null || v == Text("")
  }

  function Enrich(fields: map<string, Value>, payload: Payload, names: seq<string>): map<string, Value> {
    if names == [] then fields
    else
      var before := Enrich(fields, payload, Front(names));
      var value := Get(payload, Last(names));
      if value != Null && Blank(Get(before, Last(names))) then before[Last(names) := value] else before
  }

  function EnrichRow(payload: Payload): Row -> seq<Row> {
    (row: Row) => [Row(Enrich(row.fields, payload, PROVENANCE_FIELDS), row.items)]
  }

  function WithProvenance(category: TaskType, rows: seq<Row>, payload: Payload): seq<Row> {
    if category in {GoogleReviews, GbpInfo} then Flat(EnrichRow(payload), rows) else rows
  }

  /** Provenance fills exactly the blank fields among names that the payload has a value for,
      and changes nothing else. */
  lemma {:induction false} EnrichMeaning(fields: map<string, Value>, payload: Payload, names: seq<string>, name: string)
    ensures Get(Enrich(fields, payload, names), name)
         == if name in names && Blank(Get(fields, name)) && Get(payload, name) != Null then Get(payload, name)
            else Get(fields, name)
  {
    if names != [] {
      EnrichMeaning(fields, payload, Front(names), name);
      assert names == Front(names) + [Last(names)];
    }
  }

  /** The fields a profile or review row may take over from the payload of its task. */
  ghost predicate IsCarried(name: string) {
    || name == "cid" || name == "place_id" || name == "business_name" || name == "source_query"
    || name == "preferred_identifier_mode" || name == "review_retrieval_mode" || name == "gbp_retrieval_mode"
    || name == "location_code"
  }

  lemma CarriedMeaning(name: string)
    ensures name in PROVENANCE_FIELDS <==> IsCarried(name)
  {
    assert PROVENANCE_FIELDS[0] == "cid" && PROVENANCE_FIELDS[1] == "place_id";
    assert PROVENANCE_FIELDS[2] == "business_name" && PROVENANCE_FIELDS[3] == "source_query";
    assert PROVENANCE_FIELDS[4] == "preferred_identifier_mode" && PROVENANCE_FIELDS[5] == "review_retrieval_mode";
    assert PROVENANCE_FIELDS[6] == "gbp_retrieval_mode" && PROVENANCE_FIELDS[7] == "location_code";
  }

  /** Only rows of profile and review tasks change, and only in carried fields that are null or empty
      where the payload has a value. */
  ghost predicate IsEnriched(category: TaskType, payload: Payload, row: Row, enriched: Row) {
    && enriched.items == row.items
    && forall name :: Get(enriched.fields, name) ==
         if (category == GoogleReviews || category == GbpInfo) && IsCarried(name)
            && (Get(row.fields, name) == Null || Get(row.fields, name) == Text("")) && Get(payload, name) != Null
         then Get(payload, name)
         else Get(row.fields, name)
  }

  ghost predicate AreEnriched(category: TaskType, payload: Payload, rows: seq<Row>, enriched: seq<Row>) {
    && |enriched| == |rows|
    && forall i :: 0 <= i < |rows| ==> IsEnriched(category, payload, rows[i], enriched[i])
  }

  lemma RowIsEnriched(category: TaskType, payload: Payload, row: Row)
    requires category in {GoogleReviews, GbpInfo}
    ensures |EnrichRow(payload)(row)| == 1 && IsEnriched(category, payload, row, EnrichRow(payload)(row)[0])
  {
    hide Enrich, PROVENANCE_FIELDS, IsCarried;
    forall name
      ensures Get(Enrich(row.fields, payload, PROVENANCE_FIELDS), name)
           == if IsCarried(name) && Blank(Get(row.fields, name)) && Get(payload, name) != Null
              then Get(payload, name)
              else Get(row.fields, name)
    {
      EnrichMeaning(row.fields, payload, PROVENANCE_FIELDS, name);
      CarriedMeaning(name);
    }
  }

  lemma {:induction false} RowsAreEnriched(category: TaskType, payload: Payload, rows: seq<Row>)
    requires category in {GoogleReviews, GbpInfo}
    ensures AreEnriched(category, payload, rows, Flat(EnrichRow(payload), rows))
  {
    if rows != [] {
      RowsAreEnriched(category, payload, Front(rows));
      RowIsEnriched(category, payload, Last(rows));
      hide IsEnriched, EnrichRow;
    }
  }

  lemma ProvenanceMeaning(category: TaskType, rows: seq<Row>, payload: Payload)
    ensures AreEnriched(category, payload, rows, WithProvenance(category, rows, payload))
  {
    if category in {GoogleReviews, GbpInfo} {
      hide AreEnriched, EnrichRow, Flat;
      RowsAreEnriched(category, payload, rows);
    } else {
      hide IsCarried;
    }
  }

  method EnrichFields(fields: map<string, Value>, payload: Payload) returns (enriched: map<string, Value>)
    ensures enriched == Enrich(fields, payload, PROVENANCE_FIELDS)
  {
    enriched := fields;
    var names := PROVENANCE_FIELDS;
    for i := 0 to |names|
      invariant enriched == Enrich(fields, payload, names[..i])
    {
      assert Front(names[..i + 1]) == names[..i];
      var value := Get(payload, names[i]);
      if value != Null && Blank(Get(enriched, names[i])) { enriched := enriched[names[i] := value]; }
    }
    assert names[..|names|] == names;
  }

  method WithTaskProvenance(category: TaskType, results: seq<Row>, payload: Payload) returns (rows: seq<Row>)
    ensures rows == WithProvenance(category, results, payload)
    ensures AreEnriched(category, payload, results, rows)
  {
    hide Enrich, AreEnriched;
    ProvenanceMeaning(category, results, payload);
    if category !in {GoogleReviews, GbpInfo} { return results; }
    rows := [];
    for i := 0 to |results|
      invariant rows == Flat(EnrichRow(payload), results[..i])
    {
      assert Front(results[..i + 1]) == results[..i];
      var enriched := EnrichFields(results[i].fields, payload);
      rows := rows + [Row(enriched, results[i].items)];
    }
    assert results[..|results|] == results;
  }

  // ----- Assembly --------------------------------------------------------------------------

  /** The rows one recorded task contributes to a bucket. */
  function Contribution(d: Data, metroId: string, category: TaskType): string -> seq<Row> {
    (id: string) =>
      if id in d.results.vals && id in d.metros && d.metros[id] == metroId && metroId != ""
         && id in d.categories.vals && d.categories.vals[id] == category
      then WithProvenance(category, d.results.vals[id], if id in d.payloads then d.payloads[id] else map[])
      else []
  }

  function CostOf(d: Data): string -> real {
    (id: string) => if id in d.costs.vals then d.costs.vals[id] else 0.0
  }

  function MetroIds(metros: seq<MetroInput>): set<string> {
    set m | m in metros :: m.metroId
  }

  /** The task carries no usable metro or category, so the loop passes over it. */
  predicate Skipped(d: Data, id: string) {
    id !in d.metros || d.metros[id] == "" || id !in d.categories.vals
  }

  ghost predicate Misplaced(d: Data, ids: set<string>, id: string) {
    !Skipped(d, id) && d.metros[id] !in ids
  }

  /** A successful task names a metro the request does not have. */
  ghost predicate UnknownMetro(d: Data, ids: set<string>) {
    exists id :: id in d.results.keys && Misplaced(d, ids, id)
  }

  method EmptyResults(metros: seq<MetroInput>) returns (results: map<string, MetroResult>)
    ensures results.Keys == MetroIds(metros)
    ensures forall m :: m in results ==> results[m] == EmptyMetroResult(m)
  {
    results := map[];
    for i := 0 to |metros|
      invariant results.Keys == MetroIds(metros[..i])
      invariant forall m :: m in results ==> results[m] == EmptyMetroResult(m)
    {
      assert metros[..i + 1] == metros[..i] + [metros[i]];
      results := results[metros[i].metroId := EmptyMetroResult(metros[i].metroId)];
    }
    assert metros[..|metros|] == metros;
  }

  /** Every bucket holds the contributions to it of the tasks seen so far. */
  ghost predicate Filled(d: Data, ids: seq<string>, results: map<string, MetroResult>) {
    && (forall m :: m in results ==> results[m].metroId == m)
    && (forall m, c :: m in results ==> Bucket(results[m], c) == Flat(Contribution(d, m, c), ids))
  }

  function OwnRows(d: Data, id: string): seq<Row>
    requires id in d.results.vals && !Skipped(d, id)
  {
    WithProvenance(d.categories.vals[id], d.results.vals[id], if id in d.payloads then d.payloads[id] else map[])
  }

  lemma ContributionAt(d: Data, m: string, c: TaskType, id: string)
    requires id in d.results.vals
    ensures Contribution(d, m, c)(id)
         == if !Skipped(d, id) && d.metros[id] == m && d.categories.vals[id] == c then OwnRows(d, id) else []
  {
    hide WithProvenance;
  }

  lemma FilledSkip(d: Data, ids: seq<string>, id: string, results: map<string, MetroResult>)
    requires Filled(d, ids, results) && id in d.results.vals && Skipped(d, id)
    ensures Filled(d, ids + [id], results)
  {
    hide Bucket, Contribution, Skipped;
    forall m, c | m in results ensures Bucket(results[m], c) == Flat(Contribution(d, m, c), ids + [id]) {
      assert Bucket(results[m], c) == Flat(Contribution(d, m, c), ids);
      ContributionAt(d, m, c, id);
      FlatSnoc(Contribution(d, m, c), ids, id);
    }
  }

  lemma FilledStep(d: Data, ids: seq<string>, id: string, results: map<string, MetroResult>)
    requires Filled(d, ids, results) && id in d.results.vals && !Skipped(d, id) && d.metros[id] in results
    ensures Filled(d, ids + [id],
                   results[d.metros[id] :=
                             AppendCategory(results[d.metros[id]], d.categories.vals[id], OwnRows(d, id))])
  {
    hide Bucket, Contribution, OwnRows, AppendCategory;
    var bucket := AppendCategory(results[d.metros[id]], d.categories.vals[id], OwnRows(d, id));
    var results' := results[d.metros[id] := bucket];
    forall m, c | m in results' ensures Bucket(results'[m], c) == Flat(Contribution(d, m, c), ids + [id]) {
      ContributionAt(d, m, c, id);
      FlatSnoc(Contribution(d, m, c), ids, id);
      assert m in results && Bucket(results[m], c) == Flat(Contribution(d, m, c), ids);
    }
  }

  lemma NothingFilled(d: Data, results: map<string, MetroResult>)
    requires forall m :: m in results ==> results[m] == EmptyMetroResult(m)
    ensures Filled(d, [], results)
  {
    hide Contribution;
    forall m, c | m in results ensures Bucket(results[m], c) == Flat(Contribution(d, m, c), []) {
      assert results[m] == EmptyMetroResult(m);
    }
  }

  /** Raises exactly when a successful task names an unknown metro (a missing dictionary key). */
  method AssembleRawCollectionResult(request: CollectionRequest, state: State) returns (r: Result<RawCollectionResult>)
    requires state.taskResults.Valid() && state.taskCosts.Valid()
    ensures var d := state.View();
            && (r.Raised? <==> UnknownMetro(d, MetroIds(request.metros)))
            && (r.Ok? ==>
                  && r.value.metros.Keys == MetroIds(request.metros)
                  && Filled(d, d.results.keys, r.value.metros)
                  && r.value.meta == RunMetadata(d.totalApiCalls, Sum(CostOf(d), d.costs.keys), d.failures))
  {
    hide Bucket, WithProvenance, Contribution;
    ghost var d := state.View();
    var results := EmptyResults(request.metros);
    var ids := state.taskResults.keys;
    NothingFilled(d, results);
    for i := 0 to |ids|
      invariant results.Keys == MetroIds(request.metros)
      invariant Filled(d, ids[..i], results)
      invariant forall j :: 0 <= j < i ==> !Misplaced(d, MetroIds(request.metros), ids[j])
    {
      var id := ids[i];
      assert ids[..i + 1] == ids[..i] + [id];
      assert id in d.results.vals;
      if id !in state.taskMetros || state.taskMetros[id] == "" || id !in state.taskCategories.vals {
        FilledSkip(d, ids[..i], id, results);
        continue;
      }
      var metroId, category := state.taskMetros[id], state.taskCategories.vals[id];
      if metroId !in results {
        assert Misplaced(d, MetroIds(request.metros), id);
        return Raised(metroId);
      }
      FilledStep(d, ids[..i], id, results);
      var rows := WithTaskProvenance(category, state.taskResults.vals[id],
                                     if id in state.taskPayloads then state.taskPayloads[id] else map[]);
      results := results[metroId := AppendCategory(results[metroId], category, rows)];
    }
    assert ids[..|ids|] == ids;
    var total := 0.0;
    var paid := state.taskCosts.keys;
    for i := 0 to |paid|
      invariant total == Sum(CostOf(d), paid[..i])
    {
      assert Front(paid[..i + 1]) == paid[..i];
      total := total + state.taskCosts.vals[paid[i]];
    }
    assert paid[..|paid|] == paid;
    r := Ok(RawCollectionResult(results, RunMetadata(state.totalApiCalls, total, state.failures)));
  }
}

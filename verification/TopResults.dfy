/** Extraction of the top organic domains, organic URLs and maps profiles of a metro from the
    results of the first phase. */
module TopResults {
  import opened Containers
  import opened CollectionTypes
  import opened ExecutionState
  import CollectionPlan

  /** The text and number conversions of the source, left uninterpreted: text of a value,
      stripping, lower-casing, domain normalisation, the canonical URL key, int(), and the
      known aggregator domains. */
  datatype TextOps = TextOps(
    str: Value -> string,
    strip: string -> string,
    lower: string -> string,
    normalizeDomain: string -> string,
    urlKey: string -> string,
    toInt: Value -> Option<int>,
    aggregators: set<string>)
  {
    predicate IsAggregator(domain: string) {
      normalizeDomain(domain) in aggregators
    }

    /** Normalised domains end before the first colon, so they hold none. */
    ghost predicate DomainsHoldNoColon() {
      forall s: string :: ':' !in normalizeDomain(s)
    }

    /** str(v or "").strip() */
    function StripOrEmpty(v: Value): string {
      strip(if Truthy(v) then str(v) else "")
    }

    /** Stripped text, with empty and missing both None. */
    function OptionalText(v: Value): Option<string> {
      if v == Null then None
      else
        var t := strip(str(v));
        if t == "" then None else Some(t)
    }
  }

  // ----- First occurrences -----------------------------------------------------------------

  /** A candidate result and the key it is de-duplicated by. */
  datatype Keyed<V> = Keyed(key: string, value: V)

  function Keys<V>(xs: seq<Keyed<V>>): set<string> {
    set i | 0 <= i < |xs| :: xs[i].key
  }

  function Values<V>(xs: seq<Keyed<V>>): seq<V> {
    seq(|xs|, i requires 0 <= i < |xs| => xs[i].value)
  }

  /** The candidates whose key did not occur before, in order. */
  function FirstByKey<V>(xs: seq<Keyed<V>>): seq<Keyed<V>> {
    if xs == [] then []
    else
      var kept := FirstByKey(Front(xs));
      if Last(xs).key in Keys(kept) then kept else kept + [Last(xs)]
  }

  function Take<V>(xs: seq<V>, limit: nat): seq<V> {
    xs[..Min(limit, |xs|)]
  }

  /** The first limit candidates with pairwise different keys. */
  function TopByKey<V>(xs: seq<Keyed<V>>, limit: nat): seq<V> {
    Values(Take(FirstByKey(xs), limit))
  }

  lemma {:induction false} FirstByKeyPrefix<V>(xs: seq<Keyed<V>>, ys: seq<Keyed<V>>)
    ensures FirstByKey(xs) <= FirstByKey(xs + ys)
  {
    if ys == [] {
      assert xs + ys == xs;
    } else {
      assert Front(xs + ys) == xs + Front(ys);
      FirstByKeyPrefix(xs, Front(ys));
    }
  }

  /** Once limit keys are kept, later candidates do not matter. */
  lemma FullIsFinal<V>(xs: seq<Keyed<V>>, ys: seq<Keyed<V>>, limit: nat)
    requires |Take(FirstByKey(xs), limit)| == limit
    ensures Take(FirstByKey(xs + ys), limit) == Take(FirstByKey(xs), limit)
  {
    FirstByKeyPrefix(xs, ys);
  }

  ghost predicate DistinctKeys<V>(xs: seq<Keyed<V>>) {
    forall i, j :: 0 <= i < j < |xs| ==> xs[i].key != xs[j].key
  }

  lemma DistinctKeysSnoc<V>(xs: seq<Keyed<V>>, x: Keyed<V>)
    requires DistinctKeys(xs) && x.key !in Keys(xs)
    ensures DistinctKeys(xs + [x])
  {
    assert forall i :: 0 <= i < |xs| ==> xs[i].key in Keys(xs);
  }

  lemma EmptyDistinctKeys<V>()
    ensures DistinctKeys<V>([])
  {
  }

  lemma KeysSnoc<V>(xs: seq<Keyed<V>>, x: Keyed<V>)
    ensures Keys(xs + [x]) == Keys(xs) + {x.key}
  {
    var ys := xs + [x];
    forall k ensures k in Keys(ys) <==> k in Keys(xs) + {x.key} {
      if k in Keys(xs) {
        var i :| 0 <= i < |xs| && xs[i].key == k;
        assert ys[i].key == k;
      }
      assert ys[|xs|] == x;
    }
  }

  /** First occurrences have pairwise different keys, lose no key and invent no candidate. */
  lemma {:induction false} FirstByKeyDistinct<V>(xs: seq<Keyed<V>>)
    ensures DistinctKeys(FirstByKey(xs))
    ensures Keys(FirstByKey(xs)) == Keys(xs)
    ensures multiset(FirstByKey(xs)) <= multiset(xs)
  {
    hide Keys, DistinctKeys;
    if xs == [] {
      assert DistinctKeys<V>([]) by { EmptyDistinctKeys<V>(); }
    } else {
      FirstByKeyDistinct(Front(xs));
      var kept := FirstByKey(Front(xs));
      assert xs == Front(xs) + [Last(xs)];
      KeysSnoc(Front(xs), Last(xs));
      if Last(xs).key !in Keys(kept) {
        KeysSnoc(kept, Last(xs));
        DistinctKeysSnoc(kept, Last(xs));
      }
    }
  }

  /** The innermost statements of the search loops: keep a candidate with a new key. */
  method KeepFirst<V>(ghost before: seq<Keyed<V>>, kept: seq<Keyed<V>>, seen: set<string>, x: Keyed<V>, limit: nat)
    returns (kept': seq<Keyed<V>>, seen': set<string>, full: bool)
    requires kept == Take(FirstByKey(before), limit) && seen == Keys(kept) && |kept| < limit
    ensures kept' == Take(FirstByKey(before + [x]), limit) && seen' == Keys(kept')
    ensures |kept'| <= limit && (full <==> |kept'| == limit)
  {
    assert Front(before + [x]) == before;
    if x.key in seen { return kept, seen, false; }
    KeysSnoc(kept, x);
    kept', seen' := kept + [x], seen + {x.key};
    full := |kept'| >= limit;
  }

  // ----- Candidates ------------------------------------------------------------------------

  function DomainCandidate(ops: TextOps, item: Item): seq<Keyed<string>> {
    var domain := ops.StripOrEmpty(Get(item, "domain"));
    var key := ops.normalizeDomain(domain);
    if domain == "" || key == "" || ops.IsAggregator(key) then [] else [Keyed(key, key)]
  }

  function UrlCandidate(ops: TextOps, item: Item): seq<Keyed<string>> {
    var url := ops.StripOrEmpty(Get(item, "url"));
    var domain := Get(item, "domain");
    var competitor := ops.strip(if Truthy(domain) then ops.str(domain) else url);
    if url == "" || ops.IsAggregator(competitor) then [] else [Keyed(ops.urlKey(url), url)]
  }

  datatype Wanted = Domains | Urls

  function Candidate(ops: TextOps, wanted: Wanted, item: Item): (r: seq<Keyed<string>>)
    ensures |r| <= 1
  {
    match wanted
    case Domains => DomainCandidate(ops, item)
    case Urls => UrlCandidate(ops, item)
  }

  function ScanItem(ops: TextOps, wanted: Wanted): Item -> seq<Keyed<string>> {
    (item: Item) => Candidate(ops, wanted, item)
  }

  function ScanRow(ops: TextOps, wanted: Wanted): Row -> seq<Keyed<string>> {
    (row: Row) => Flat(ScanItem(ops, wanted), row.items)
  }

  type Results = map<string, seq<Row>>

  function ResultsOf(results: Results, id: string): seq<Row> {
    if id in results then results[id] else []
  }

  function ScanTask(ops: TextOps, wanted: Wanted, results: Results): string -> seq<Keyed<string>> {
    (id: string) => Flat(ScanRow(ops, wanted), ResultsOf(results, id))
  }

  /** Completed organic tasks of the metro in plan order. */
  function OrganicTaskIds(metroId: string, baseTasks: seq<CollectionTask>, categories: map<string, TaskType>)
    : seq<string>
  {
    if baseTasks == [] then []
    else
      var t := Last(baseTasks);
      OrganicTaskIds(metroId, Front(baseTasks), categories)
      + if t.taskType == SerpOrganic && t.metroId == metroId
           && t.taskId in categories && categories[t.taskId] == SerpOrganic
        then [t.taskId] else []
  }

  /** The first limit distinct non-aggregator domains (or URLs) of the metro in plan order. */
  function TopOrganic(ops: TextOps, wanted: Wanted, metroId: string, plan: CollectionPlan.Plan, d: Data, limit: nat)
    : seq<string>
  {
    var ids := OrganicTaskIds(metroId, plan.baseTasks, d.categories.vals);
    TopByKey(Flat(ScanTask(ops, wanted, d.results.vals), ids), limit)
  }

  // ----- What a search finds, item by item -------------------------------------------------

  ghost function Field(item: Item, name: string): Value {
    if name in item then item[name] else Null
  }

  ghost predicate IsEmpty(v: Value) {
    v in {Null, Text(""), Number(0), Texts([])}
  }

  /** The item's domain has the non-empty normal form key, which is no aggregator. */
  ghost predicate NamesDomain(ops: TextOps, item: Item, key: string) {
    var v := Field(item, "domain");
    var raw := ops.strip(if IsEmpty(v) then "" else ops.str(v));
    raw != "" && key == ops.normalizeDomain(raw) && key != "" && ops.normalizeDomain(key) !in ops.aggregators
  }

  /** The item has the non-empty URL, with the URL key key; and its domain, or else the URL itself, is
      no aggregator's. */
  ghost predicate NamesUrl(ops: TextOps, item: Item, key: string, url: string) {
    var u, d := Field(item, "url"), Field(item, "domain");
    && url == ops.strip(if IsEmpty(u) then "" else ops.str(u))
    && url != "" && key == ops.urlKey(url)
    && ops.normalizeDomain(ops.strip(if IsEmpty(d) then url else ops.str(d))) !in ops.aggregators
  }

  ghost predicate Names(ops: TextOps, wanted: Wanted, item: Item, c: Keyed<string>) {
    match wanted
    case Domains => NamesDomain(ops, item, c.key) && c.value == c.key
    case Urls => NamesUrl(ops, item, c.key, c.value)
  }

  ghost function ItemsOfRows(rows: seq<Row>): seq<Item> {
    if rows == [] then [] else ItemsOfRows(Front(rows)) + Last(rows).items
  }

  /** Whether the planned task is an organic one of the metro that was answered. */
  ghost predicate IsCompletedOrganic(t: CollectionTask, metroId: string, d: Data) {
    && t.taskType == SerpOrganic && t.metroId == metroId
    && t.taskId in d.categories.vals && d.categories.vals[t.taskId] == SerpOrganic
  }

  /** All items of the metro's completed organic tasks: tasks in plan order, then rows, then items. */
  ghost function ItemsFound(metroId: string, tasks: seq<CollectionTask>, d: Data): seq<Item> {
    if tasks == [] then []
    else
      var t := Last(tasks);
      ItemsFound(metroId, Front(tasks), d)
      + if IsCompletedOrganic(t, metroId, d) && t.taskId in d.results.vals
        then ItemsOfRows(d.results.vals[t.taskId]) else []
  }

  /** The key is found at an item no later than j. */
  ghost predicate FoundBy(found: seq<Keyed<string>>, positions: seq<int>, j: int, key: string)
    requires |positions| == |found|
  {
    exists a :: 0 <= a < |found| && positions[a] <= j && found[a].key == key
  }

  /** found lists, under different keys, what the items at the given increasing positions name. */
  ghost predicate NamedAt(
      ops: TextOps, wanted: Wanted, items: seq<Item>, found: seq<Keyed<string>>, positions: seq<int>)
  {
    && |positions| == |found|
    && (forall a, b :: 0 <= a < b < |positions| ==> positions[a] < positions[b])
    && (forall a, b :: 0 <= a < b < |found| ==> found[a].key != found[b].key)
    && (forall a :: 0 <= a < |positions| ==>
          0 <= positions[a] < |items| && Names(ops, wanted, items[positions[a]], found[a]))
  }

  /** Whatever an item before position upTo names is found at or before that item. */
  ghost predicate AllFound(
      ops: TextOps, wanted: Wanted, items: seq<Item>, found: seq<Keyed<string>>, positions: seq<int>, upTo: int)
    requires |positions| == |found|
  {
    forall j, c :: 0 <= j < upTo && j < |items| && Names(ops, wanted, items[j], c) ==>
      FoundBy(found, positions, j, c.key)
  }

  /** found lists, in order, the first item that names each key, for all items before position upTo. */
  ghost predicate FirstNamed(
      ops: TextOps, wanted: Wanted, items: seq<Item>, found: seq<Keyed<string>>, positions: seq<int>, upTo: int)
  {
    NamedAt(ops, wanted, items, found, positions) && AllFound(ops, wanted, items, found, positions, upTo)
  }

  ghost predicate FindsFirst(
      ops: TextOps, wanted: Wanted, items: seq<Item>, limit: nat, values: seq<string>,
      found: seq<Keyed<string>>, positions: seq<int>)
  {
    && |values| == |found| <= limit && |positions| == |found|
    && (forall a :: 0 <= a < |found| ==> values[a] == found[a].value)
    && FirstNamed(ops, wanted, items, found, positions,
                  if |found| < limit || found == [] then |items| else Last(positions) + 1)
  }

  /** The first limit values that the metro's items name: all of them if there are fewer, and else
      everything named up to the last one kept. */
  ghost predicate FirstFound(
      ops: TextOps, wanted: Wanted, items: seq<Item>, limit: nat, values: seq<string>)
  {
    exists found, positions :: FindsFirst(ops, wanted, items, limit, values, found, positions)
  }

  lemma NamesCandidate(ops: TextOps, wanted: Wanted, item: Item, c: Keyed<string>)
    ensures Names(ops, wanted, item, c) <==> Candidate(ops, wanted, item) == [c]
  {
  }

  lemma {:induction false} ScanItemsOfRows(ops: TextOps, wanted: Wanted, rows: seq<Row>)
    ensures Flat(ScanItem(ops, wanted), ItemsOfRows(rows)) == Flat(ScanRow(ops, wanted), rows)
  {
    if rows != [] {
      ScanItemsOfRows(ops, wanted, Front(rows));
      FlatConcat(ScanItem(ops, wanted), ItemsOfRows(Front(rows)), Last(rows).items);
    }
  }

  lemma NoItems()
    ensures ItemsOfRows([]) == []
  {
  }

  lemma {:induction false} ScanItemsFound(
      ops: TextOps, wanted: Wanted, metroId: string, tasks: seq<CollectionTask>, d: Data)
    ensures Flat(ScanItem(ops, wanted), ItemsFound(metroId, tasks, d))
         == Flat(ScanTask(ops, wanted, d.results.vals), OrganicTaskIds(metroId, tasks, d.categories.vals))
  {
    var f, g := ScanItem(ops, wanted), ScanTask(ops, wanted, d.results.vals);
    FlatNone(f);
    FlatNone(g);
    if tasks != [] {
      hide Flat, Candidate, ItemsOfRows;
      var front, t := Front(tasks), Last(tasks);
      ScanItemsFound(ops, wanted, metroId, front, d);
      var ids, items := OrganicTaskIds(metroId, front, d.categories.vals), ItemsFound(metroId, front, d);
      if IsCompletedOrganic(t, metroId, d) {
        FlatSnoc(g, ids, t.taskId);
        var rows := ResultsOf(d.results.vals, t.taskId);
        ScanItemsOfRows(ops, wanted, rows);
        FlatConcat(f, items, ItemsOfRows(rows));
        FlatNone(ScanRow(ops, wanted));
        NoItems();
      } else {
        assert items + [] == items && ids + [] == ids;
      }
    }
  }

  lemma FoundBySnoc(found: seq<Keyed<string>>, positions: seq<int>, c: Keyed<string>, place: int, j: int, key: string)
    requires |positions| == |found|
    ensures FoundBy(found + [c], positions + [place], j, key)
            <==> FoundBy(found, positions, j, key) || (place <= j && c.key == key)
  {
    var more, places := found + [c], positions + [place];
    if FoundBy(found, positions, j, key) {
      var a :| 0 <= a < |found| && positions[a] <= j && found[a].key == key;
      assert places[a] == positions[a] && more[a] == found[a];
    }
    if place <= j && c.key == key {
      assert places[|found|] == place && more[|found|] == c;
    }
    if FoundBy(more, places, j, key) {
      var a :| 0 <= a < |more| && places[a] <= j && more[a].key == key;
      assert a < |found| ==> places[a] == positions[a] && more[a] == found[a];
    }
  }

  lemma NamedAtGrows(
      ops: TextOps, wanted: Wanted, items: seq<Item>, item: Item, found: seq<Keyed<string>>, positions: seq<int>)
    requires NamedAt(ops, wanted, items, found, positions)
    ensures NamedAt(ops, wanted, items + [item], found, positions)
  {
    hide Names;
  }

  lemma NamedAtSnoc(
      ops: TextOps, wanted: Wanted, items: seq<Item>, item: Item, found: seq<Keyed<string>>, positions: seq<int>,
      c: Keyed<string>)
    requires NamedAt(ops, wanted, items, found, positions)
    requires c.key !in Keys(found) && Names(ops, wanted, item, c)
    ensures NamedAt(ops, wanted, items + [item], found + [c], positions + [|items|])
  {
    hide Names;
    forall a | 0 <= a < |found| ensures found[a].key != c.key {
      assert found[a].key in Keys(found);
    }
    assert (items + [item])[|items|] == item;
  }

  lemma KeyPosition(found: seq<Keyed<string>>, positions: seq<int>, j: int, key: string)
    requires |positions| == |found| && key in Keys(found) && forall a :: 0 <= a < |positions| ==> positions[a] <= j
    ensures FoundBy(found, positions, j, key)
  {
  }

  /** An item that names nothing new changes nothing. */
  lemma FirstNamedSnoc(
      ops: TextOps, wanted: Wanted, items: seq<Item>, item: Item, found: seq<Keyed<string>>, positions: seq<int>)
    requires FirstNamed(ops, wanted, items, found, positions, |items|)
    requires forall c :: Names(ops, wanted, item, c) ==> c.key in Keys(found)
    ensures FirstNamed(ops, wanted, items + [item], found, positions, |items| + 1)
  {
    hide Names, FoundBy, Keys;
    NamedAtGrows(ops, wanted, items, item, found, positions);
    forall j, c | 0 <= j < |items| + 1 && Names(ops, wanted, (items + [item])[j], c)
      ensures FoundBy(found, positions, j, c.key)
    {
      if j < |items| {
        assert (items + [item])[j] == items[j];
      } else {
        KeyPosition(found, positions, j, c.key);
      }
    }
  }

  lemma NamedAtSizes(
      ops: TextOps, wanted: Wanted, items: seq<Item>, found: seq<Keyed<string>>, positions: seq<int>)
    requires NamedAt(ops, wanted, items, found, positions)
    ensures |positions| == |found|
  {
  }

  /** An item that names a new key is the first to name it. */
  lemma FirstNamedAnother(
      ops: TextOps, wanted: Wanted, items: seq<Item>, item: Item, found: seq<Keyed<string>>, positions: seq<int>,
      c: Keyed<string>)
    requires FirstNamed(ops, wanted, items, found, positions, |items|)
    requires c.key !in Keys(found) && forall e :: Names(ops, wanted, item, e) <==> e == c
    ensures FirstNamed(ops, wanted, items + [item], found + [c], positions + [|items|], |items| + 1)
  {
    NamedAtSnoc(ops, wanted, items, item, found, positions, c);
    hide Names, FoundBy, Keys, NamedAt;
    NamedAtSizes(ops, wanted, items, found, positions);
    var all := items + [item];
    forall j, e | 0 <= j < |items| + 1 && Names(ops, wanted, all[j], e)
      ensures FoundBy(found + [c], positions + [|items|], j, e.key)
    {
      FoundBySnoc(found, positions, c, |items|, j, e.key);
      if j < |items| {
        assert all[j] == items[j];
      }
    }
  }

  /** Keeping first occurrences finds exactly the first item of every key. */
  lemma {:induction false} FirstByKeyFinds(ops: TextOps, wanted: Wanted, items: seq<Item>) returns (positions: seq<int>)
    ensures FirstNamed(ops, wanted, items, FirstByKey(Flat(ScanItem(ops, wanted), items)), positions, |items|)
  {
    var f := ScanItem(ops, wanted);
    FlatNone(f);
    positions := [];
    if items != [] {
      hide Flat, Candidate, Names, FirstNamed, Keys;
      var front, item := Front(items), Last(items);
      assert items == front + [item];
      positions := FirstByKeyFinds(ops, wanted, front);
      FlatSnoc(f, front, item);
      var before := Flat(f, front);
      var kept := FirstByKey(before);
      forall c ensures Names(ops, wanted, item, c) <==> Candidate(ops, wanted, item) == [c] {
        NamesCandidate(ops, wanted, item, c);
      }
      if Candidate(ops, wanted, item) == [] {
        assert before + [] == before;
        FirstNamedSnoc(ops, wanted, front, item, kept, positions);
      } else {
        var c := Candidate(ops, wanted, item)[0];
        assert Candidate(ops, wanted, item) == [c];
        assert Front(before + [c]) == before;
        if c.key in Keys(kept) {
          FirstNamedSnoc(ops, wanted, front, item, kept, positions);
        } else {
          FirstNamedAnother(ops, wanted, front, item, kept, positions, c);
          positions := positions + [|front|];
        }
      }
    }
  }

  lemma NamedAtTake(
      ops: TextOps, wanted: Wanted, items: seq<Item>, found: seq<Keyed<string>>, positions: seq<int>, n: nat)
    requires NamedAt(ops, wanted, items, found, positions) && n <= |found|
    ensures NamedAt(ops, wanted, items, found[..n], positions[..n])
  {
    hide Names;
  }

  lemma FoundByTake(found: seq<Keyed<string>>, positions: seq<int>, n: nat, j: int, key: string)
    requires |positions| == |found| && 0 < n <= |found| && FoundBy(found, positions, j, key)
    requires j <= positions[n - 1] && forall a, b :: 0 <= a < b < |positions| ==> positions[a] < positions[b]
    ensures FoundBy(found[..n], positions[..n], j, key)
  {
    var a :| 0 <= a < |found| && positions[a] <= j && found[a].key == key;
    assert found[..n][a] == found[a] && positions[..n][a] == positions[a];
  }

  lemma FirstNamedTake(
      ops: TextOps, wanted: Wanted, items: seq<Item>, found: seq<Keyed<string>>, positions: seq<int>, n: nat)
    requires FirstNamed(ops, wanted, items, found, positions, |items|) && 0 < n <= |found|
    ensures FirstNamed(ops, wanted, items, found[..n], positions[..n], positions[n - 1] + 1)
  {
    hide Names, FoundBy;
    NamedAtTake(ops, wanted, items, found, positions, n);
    forall j, c | 0 <= j < positions[n - 1] + 1 && j < |items| && Names(ops, wanted, items[j], c)
      ensures FoundBy(found[..n], positions[..n], j, c.key)
    {
      FoundByTake(found, positions, n, j, c.key);
    }
  }

  /** What the search returns, in terms of the plan, the rows and the texts alone: the first limit
      domains, or URLs, that the items of the metro's completed organic tasks name. */
  lemma TopOrganicFindsFirst(
      ops: TextOps, wanted: Wanted, metroId: string, plan: CollectionPlan.Plan, d: Data, limit: nat)
    requires limit > 0
    ensures FirstFound(ops, wanted, ItemsFound(metroId, plan.baseTasks, d), limit,
                       TopOrganic(ops, wanted, metroId, plan, d, limit))
  {
    hide Flat, ScanItem, ScanTask, OrganicTaskIds, ItemsFound, FirstByKey, NamedAt, AllFound;
    var items := ItemsFound(metroId, plan.baseTasks, d);
    ScanItemsFound(ops, wanted, metroId, plan.baseTasks, d);
    var positions := FirstByKeyFinds(ops, wanted, items);
    var found := FirstByKey(Flat(ScanItem(ops, wanted), items));
    var values := TopOrganic(ops, wanted, metroId, plan, d, limit);
    NamedAtSizes(ops, wanted, items, found, positions);
    if |found| < limit {
      assert Take(found, limit) == found;
      assert FindsFirst(ops, wanted, items, limit, values, found, positions);
    } else {
      FirstNamedTake(ops, wanted, items, found, positions, limit);
      assert FindsFirst(ops, wanted, items, limit, values, found[..limit], positions[..limit]);
    }
  }

  // ----- The search ------------------------------------------------------------------------

  /** Appending the i-th piece of a search, with what remains if the search stops there. */
  lemma FlatStep<T, V>(f: T -> seq<Keyed<V>>, xs: seq<T>, i: nat, before: seq<Keyed<V>>, limit: nat)
    requires i < |xs|
    ensures before + Flat(f, xs[..i + 1]) == before + Flat(f, xs[..i]) + f(xs[i])
    ensures |Take(FirstByKey(before + Flat(f, xs[..i + 1])), limit)| == limit ==>
              Take(FirstByKey(before + Flat(f, xs[..i + 1])), limit) == Take(FirstByKey(before + Flat(f, xs)), limit)
  {
    hide Flat, FirstByKey, Take;
    assert xs[..i + 1] == xs[..i] + [xs[i]];
    FlatSnoc(f, xs[..i], xs[i]);
    assert xs == xs[..i + 1] + xs[i + 1..];
    FlatConcat(f, xs[..i + 1], xs[i + 1..]);
    var sofar, rest := before + Flat(f, xs[..i + 1]), Flat(f, xs[i + 1..]);
    assert before + Flat(f, xs) == sofar + rest;
    if |Take(FirstByKey(sofar), limit)| == limit {
      FullIsFinal(sofar, rest, limit);
    }
  }

  /** The loop over the items of one row; full means the search is over. */
  method SearchItems(ops: TextOps, wanted: Wanted, items: seq<Item>, limit: nat,
                     ghost before: seq<Keyed<string>>, kept: seq<Keyed<string>>, seen: set<string>)
    returns (kept': seq<Keyed<string>>, seen': set<string>, full: bool)
    requires kept == Take(FirstByKey(before), limit) && seen == Keys(kept) && |kept| < limit
    ensures kept' == Take(FirstByKey(before + Flat(ScanItem(ops, wanted), items)), limit)
    ensures seen' == Keys(kept') && |kept'| <= limit && (full <==> |kept'| == limit)
  {
    hide Candidate, FirstByKey, Take, Keys;
    ghost var f := ScanItem(ops, wanted);
    kept', seen', full := kept, seen, false;
    assert before + Flat(f, items[..0]) == before;
    for i := 0 to |items|
      invariant kept' == Take(FirstByKey(before + Flat(f, items[..i])), limit)
      invariant seen' == Keys(kept') && |kept'| < limit && !full
    {
      FlatStep(f, items, i, before, limit);
      var found := Candidate(ops, wanted, items[i]);
      if found != [] {
        assert found == [found[0]];
        kept', seen', full := KeepFirst(before + Flat(f, items[..i]), kept', seen', found[0], limit);
        if full { return; }
      } else {
        assert before + Flat(f, items[..i]) + found == before + Flat(f, items[..i]);
      }
    }
    assert items[..|items|] == items;
  }

  /** The loop over the result rows of one task. */
  method SearchRows(ops: TextOps, wanted: Wanted, rows: seq<Row>, limit: nat,
                    ghost before: seq<Keyed<string>>, kept: seq<Keyed<string>>, seen: set<string>)
    returns (kept': seq<Keyed<string>>, seen': set<string>, full: bool)
    requires kept == Take(FirstByKey(before), limit) && seen == Keys(kept) && |kept| < limit
    ensures kept' == Take(FirstByKey(before + Flat(ScanRow(ops, wanted), rows)), limit)
    ensures seen' == Keys(kept') && |kept'| <= limit && (full <==> |kept'| == limit)
  {
    hide FirstByKey, Take, Keys;
    ghost var f := ScanRow(ops, wanted);
    kept', seen', full := kept, seen, false;
    assert before + Flat(f, rows[..0]) == before;
    for i := 0 to |rows|
      invariant kept' == Take(FirstByKey(before + Flat(f, rows[..i])), limit)
      invariant seen' == Keys(kept') && |kept'| < limit && !full
    {
      FlatStep(f, rows, i, before, limit);
      kept', seen', full := SearchItems(ops, wanted, rows[i].items, limit, before + Flat(f, rows[..i]), kept', seen');
      if full { return; }
    }
    assert rows[..|rows|] == rows;
  }

  lemma NothingKept<V>(limit: nat)
    ensures Take(FirstByKey<V>([]), limit) == [] && Keys<V>([]) == {}
  {
  }

  /** The loop over the metro's completed organic tasks. */
  method SearchTasks(ops: TextOps, wanted: Wanted, metroId: string, plan: CollectionPlan.Plan,
                            state: State, limit: nat)
    returns (found: seq<string>)
    requires limit > 0
    ensures found == TopOrganic(ops, wanted, metroId, plan, state.View(), limit)
  {
    hide FirstByKey, Take, Keys, OrganicTaskIds, ScanRow, Flat;
    FlatNone(ScanTask(ops, wanted, state.View().results.vals));
    ghost var d := state.View();
    ghost var f := ScanTask(ops, wanted, d.results.vals);
    var ids := OrganicTaskIds(metroId, plan.baseTasks, state.taskCategories.vals);
    var kept: seq<Keyed<string>>, seen: set<string>, full := [], {}, false;
    ghost var none: seq<Keyed<string>> := [];
    NothingKept<string>(limit);
    assert none + Flat(f, ids[..0]) == none;
    for i := 0 to |ids|
      invariant kept == Take(FirstByKey(none + Flat(f, ids[..i])), limit)
      invariant seen == Keys(kept) && |kept| < limit && !full
    {
      FlatStep(f, ids, i, none, limit);
      var rows := ResultsOf(state.taskResults.vals, ids[i]);
      kept, seen, full := SearchRows(ops, wanted, rows, limit, none + Flat(f, ids[..i]), kept, seen);
      if full {
        assert none + Flat(f, ids) == Flat(f, ids);
        return Values(kept);
      }
    }
    assert ids[..|ids|] == ids;
    assert none + Flat(f, ids) == Flat(f, ids);
    found := Values(kept);
  }

  lemma {:induction false} KeysSize<V>(xs: seq<Keyed<V>>)
    requires DistinctKeys(xs)
    ensures |Keys(xs)| == |xs|
  {
    if xs != [] {
      assert xs == Front(xs) + [Last(xs)];
      KeysSnoc(Front(xs), Last(xs));
      KeysSize(Front(xs));
    }
  }

  /** Unique organic domains (or URLs) of the metro in planned SERP order. */
  method TopOrganicForMetro(ops: TextOps, wanted: Wanted, metroId: string, plan: CollectionPlan.Plan,
                            state: State, limit: nat)
    returns (found: seq<string>)
    requires limit > 0
    ensures found == TopOrganic(ops, wanted, metroId, plan, state.View(), limit)
    ensures FirstFound(ops, wanted, ItemsFound(metroId, plan.baseTasks, state.View()), limit, found)
  {
    hide TopOrganic, FirstFound, ItemsFound;
    found := SearchTasks(ops, wanted, metroId, plan, state, limit);
    TopOrganicFindsFirst(ops, wanted, metroId, plan, state.View(), limit);
  }

  /** What keeping the first limit keys returns: at most limit values, of actual candidates, and
      one for every key unless the limit was reached. */
  lemma TopByKeyMeaning<V>(all: seq<Keyed<V>>, limit: nat)
    ensures |TopByKey(all, limit)| <= limit
    ensures forall v :: v in TopByKey(all, limit) ==> exists c :: c in all && c.value == v
    ensures |TopByKey(all, limit)| < limit ==> |TopByKey(all, limit)| == |Keys(all)|
  {
    hide FirstByKey, Keys;
    FirstByKeyDistinct(all);
    var first := FirstByKey(all);
    forall v | v in TopByKey(all, limit) ensures exists c :: c in all && c.value == v {
      var i :| 0 <= i < |first| && first[i].value == v;
      assert first[i] in multiset(first);
      assert first[i] in all;
    }
    KeysSize(first);
  }

  /** What the search returns: at most limit values, of actual candidates, and one for every
      candidate key unless the limit was reached. */
  lemma TopOrganicMeaning(ops: TextOps, wanted: Wanted, metroId: string, plan: CollectionPlan.Plan, d: Data, limit: nat)
    ensures var found := TopOrganic(ops, wanted, metroId, plan, d, limit);
            var all := Flat(ScanTask(ops, wanted, d.results.vals),
                OrganicTaskIds(metroId, plan.baseTasks, d.categories.vals));
            && |found| <= limit
            && (forall v :: v in found ==> exists c :: c in all && c.value == v)
            && (|found| < limit ==> |found| == |Keys(all)|)
  {
    hide Keys, TopByKey, Flat, OrganicTaskIds, ScanTask;
    var all := Flat(ScanTask(ops, wanted, d.results.vals), OrganicTaskIds(metroId, plan.baseTasks, d.categories.vals));
    TopByKeyMeaning(all, limit);
  }
}

/** What the search for a metro's business profile and maps keyword looks at, spelled out over the
    fields of the provider's rows and items. */
module MapsMeaning {
  import opened Containers
  import opened CollectionTypes
  import opened ExecutionState
  import opened TopResults
  import opened MapsProfiles

  // ----- Ranks -----------------------------------------------------------------------------

  /** The field as a positive integer, if it reads as one. */
  ghost function PositiveField(ops: TextOps, item: Item, name: string): Option<int> {
    match ops.toInt(Field(item, name))
    case Some(n) => if n > 0 then Some(n) else None
    case None => None
  }

  ghost function FirstSome(a: Option<int>, b: Option<int>): Option<int> {
    if a.Some? then a else b
  }

  /** The rank of an item: rank_group, else rank, else position, else rank_absolute, whichever is first
      to read as a positive integer. */
  ghost function TrueRank(ops: TextOps, item: Item): Option<int> {
    FirstSome(PositiveField(ops, item, "rank_group"),
              FirstSome(PositiveField(ops, item, "rank"),
                        FirstSome(PositiveField(ops, item, "position"), PositiveField(ops, item, "rank_absolute"))))
  }

  lemma RankFromFirst(ops: TextOps, item: Item, name: string, rest: seq<string>)
    ensures RankFrom(ops, item, [name] + rest) == FirstSome(PositiveField(ops, item, name), RankFrom(ops, item, rest))
  {
    assert ([name] + rest)[1..] == rest;
  }

  lemma RankMeaning(ops: TextOps, item: Item)
    ensures RankOf(ops, item) == TrueRank(ops, item)
  {
    RankFromFirst(ops, item, "rank_group", ["rank", "position", "rank_absolute"]);
    RankFromFirst(ops, item, "rank", ["position", "rank_absolute"]);
    RankFromFirst(ops, item, "position", ["rank_absolute"]);
    RankFromFirst(ops, item, "rank_absolute", []);
    assert RANK_FIELDS == ["rank_group"] + ["rank", "position", "rank_absolute"];
    assert ["rank", "position", "rank_absolute"] == ["rank"] + ["position", "rank_absolute"];
    assert ["position", "rank_absolute"] == ["position"] + ["rank_absolute"];
    assert ["rank_absolute"] == ["rank_absolute"] + [];
    hide RankFrom, PositiveField;
  }

  // ----- The best-ranked items -------------------------------------------------------------

  /** Item i comes before item j: it has the smaller rank, or only it has one, or the ranks are equal and
      it stands first. */
  ghost predicate ComesBefore(ops: TextOps, items: seq<Item>, i: int, j: int)
    requires 0 <= i < |items| && 0 <= j < |items|
  {
    var a, b := TrueRank(ops, items[i]), TrueRank(ops, items[j]);
    if a == b then i < j
    else a.Some? && (b.None? || a.value < b.value)
  }

  /** order lists all positions of items, each before the ones that follow it. */
  ghost predicate IsRankOrder(ops: TextOps, items: seq<Item>, order: seq<int>) {
    && |order| == |items|
    && (forall a :: 0 <= a < |order| ==> 0 <= order[a] < |items|)
    && (forall a, b :: 0 <= a < b < |order| ==> ComesBefore(ops, items, order[a], order[b]))
  }

  ghost predicate ItemsAt(items: seq<Item>, order: seq<int>, listed: seq<Item>) {
    && |listed| <= |order|
    && forall a :: 0 <= a < |listed| ==> 0 <= order[a] < |items| && listed[a] == items[order[a]]
  }

  lemma RanksOrdered(ops: TextOps, a: Item, b: Item)
    ensures RankLeq(RankOf(ops, a), RankOf(ops, b)) <==>
      TrueRank(ops, a) == TrueRank(ops, b)
      || (TrueRank(ops, a).Some?
          && (TrueRank(ops, b).None? || TrueRank(ops, a).value < TrueRank(ops, b).value))
  {
    RankMeaning(ops, a);
    RankMeaning(ops, b);
    hide RankOf, TrueRank;
  }

  /** sorted are the items at the positions order, all below n, in rank order. */
  ghost predicate Ordered(ops: TextOps, items: seq<Item>, n: nat, order: seq<int>, sorted: seq<Item>) {
    && |sorted| == |order| && ItemsAt(items, order, sorted)
    && (forall a :: 0 <= a < |order| ==> order[a] < n)
    && forall a, b :: 0 <= a < b < |order| ==> ComesBefore(ops, items, order[a], order[b])
  }

  lemma AppendPosition(ops: TextOps, items: seq<Item>, n: nat, order: seq<int>, sorted: seq<Item>, m: nat, p: int)
    requires Ordered(ops, items, n, order, sorted) && n <= m <= |items| && 0 <= p < m
    requires forall a :: 0 <= a < |order| ==> ComesBefore(ops, items, order[a], p)
    ensures Ordered(ops, items, m, order + [p], sorted + [items[p]])
  {
    hide ComesBefore;
  }

  lemma LastBefore(ops: TextOps, items: seq<Item>, order: seq<int>, a: int, n: nat)
    requires n < |items| && order != [] && 0 <= a < |order|
    requires forall b :: 0 <= b < |order| ==> 0 <= order[b] < n
    requires forall b, c :: 0 <= b < c < |order| ==> ComesBefore(ops, items, order[b], order[c])
    requires RankLeq(RankOf(ops, items[Last(order)]), RankOf(ops, items[n]))
    ensures ComesBefore(ops, items, order[a], n)
  {
    hide TrueRank, RankOf;
    RanksOrdered(ops, items[Last(order)], items[n]);
    if a < |order| - 1 {
      assert ComesBefore(ops, items, order[a], order[|order| - 1]);
    }
  }

  lemma InsertedBefore(ops: TextOps, items: seq<Item>, order: seq<int>, p: int, n: nat)
    requires n < |items| && order != [] && forall b :: 0 <= b < |order| ==> 0 <= order[b] < n
    requires forall b, c :: 0 <= b < c < |order| ==> ComesBefore(ops, items, order[b], order[c])
    requires p == n || p in Front(order)
    requires !RankLeq(RankOf(ops, items[Last(order)]), RankOf(ops, items[n]))
    ensures 0 <= p <= n && ComesBefore(ops, items, p, Last(order))
  {
    hide TrueRank, RankOf;
    RanksOrdered(ops, items[Last(order)], items[n]);
    if p != n {
      var b :| 0 <= b < |Front(order)| && Front(order)[b] == p;
      assert order[b] == p && ComesBefore(ops, items, order[b], order[|order| - 1]);
    }
  }

  /** Putting position n into the rank order of the items before it. */
  lemma {:induction false} InsertOrder(ops: TextOps, items: seq<Item>, sorted: seq<Item>, order: seq<int>, n: nat)
    returns (longer: seq<int>)
    requires n < |items| && Ordered(ops, items, n, order, sorted)
    ensures Ordered(ops, items, n + 1, longer, InsertByRank(ops, sorted, items[n]))
    ensures |longer| == |order| + 1
    ensures forall a :: 0 <= a < |longer| ==> longer[a] == n || longer[a] in order
  {
    hide TrueRank, RankOf, RankLeq, ComesBefore;
    var x := items[n];
    if sorted == [] || RankLeq(RankOf(ops, Last(sorted)), RankOf(ops, x)) {
      longer := order + [n];
      forall a | 0 <= a < |order| ensures ComesBefore(ops, items, order[a], n) {
        LastBefore(ops, items, order, a, n);
      }
      AppendPosition(ops, items, n, order, sorted, n + 1, n);
    } else {
      var shorter := InsertOrder(ops, items, Front(sorted), Front(order), n);
      longer := shorter + [Last(order)];
      forall a | 0 <= a < |shorter| ensures ComesBefore(ops, items, shorter[a], Last(order)) {
        InsertedBefore(ops, items, order, shorter[a], n);
      }
      AppendPosition(ops, items, n + 1, shorter, InsertByRank(ops, Front(sorted), x), n + 1, Last(order));
    }
  }

  /** The sorted items are the items in rank order. */
  lemma {:induction false} SortOrder(ops: TextOps, items: seq<Item>, n: nat) returns (order: seq<int>)
    requires n <= |items|
    ensures |order| == n && Ordered(ops, items, n, order, SortByRank(ops, items[..n]))
  {
    hide ComesBefore, InsertByRank;
    order := [];
    if n > 0 {
      var shorter := SortOrder(ops, items, n - 1);
      assert Front(items[..n]) == items[..n - 1] && Last(items[..n]) == items[n - 1];
      order := InsertOrder(ops, items, SortByRank(ops, items[..n - 1]), shorter, n - 1);
    }
  }

  lemma InPlaceOrder(ops: TextOps, items: seq<Item>) returns (order: seq<int>)
    requires forall i :: 0 <= i < |items| ==> TrueRank(ops, items[i]) == None
    ensures IsRankOrder(ops, items, order) && ItemsAt(items, order, items) && |order| == |items|
  {
    hide TrueRank;
    order := seq(|items|, i requires 0 <= i < |items| => i);
  }

  lemma PrefixAt(items: seq<Item>, order: seq<int>, listed: seq<Item>, limit: nat)
    requires |listed| == |order| && ItemsAt(items, order, listed)
    ensures |Take(listed, limit)| == Min(limit, |listed|) && ItemsAt(items, order, Take(listed, limit))
  {
  }

  lemma SortedOrder(ops: TextOps, items: seq<Item>) returns (order: seq<int>)
    ensures IsRankOrder(ops, items, order) && |order| == |SortByRank(ops, items)| == |items|
    ensures ItemsAt(items, order, SortByRank(ops, items))
  {
    hide ComesBefore, SortByRank, TrueRank;
    order := SortOrder(ops, items, |items|);
    assert items[..|items|] == items;
  }

  lemma AnyRanked(ops: TextOps, items: seq<Item>)
    ensures (exists i :: 0 <= i < |items| && RankOf(ops, items[i]) != None) <==>
      exists i :: 0 <= i < |items| && TrueRank(ops, items[i]) != None
  {
    hide RankOf, TrueRank;
    forall i | 0 <= i < |items| ensures RankOf(ops, items[i]) == TrueRank(ops, items[i]) {
      RankMeaning(ops, items[i]);
    }
  }

  /** The best-ranked items are the first ones in rank order: smaller ranks first, unranked items last,
      and equal ranks, or items without any ranks, as they stand. */
  lemma TopRankedMeaning(ops: TextOps, items: seq<Item>, limit: nat) returns (order: seq<int>)
    ensures IsRankOrder(ops, items, order)
    ensures |TopRankedItems(ops, items, limit)| == Min(limit, |items|)
    ensures ItemsAt(items, order, TopRankedItems(ops, items, limit))
  {
    hide RankOf, TrueRank, SortByRank, IsRankOrder, ItemsAt, Take;
    AnyRanked(ops, items);
    if exists i :: 0 <= i < |items| && RankOf(ops, items[i]) != None {
      order := SortedOrder(ops, items);
      PrefixAt(items, order, SortByRank(ops, items), limit);
    } else {
      order := InPlaceOrder(ops, items);
      PrefixAt(items, order, items, limit);
    }
  }

  // ----- Profiles --------------------------------------------------------------------------

  /** The text of a field: none if the field is null or blank. */
  ghost function TextOf(ops: TextOps, v: Value): Option<string> {
    if v == Null || ops.strip(ops.str(v)) == "" then None else Some(ops.strip(ops.str(v)))
  }

  /** The first of title, name and business_name that is not empty, as text. */
  ghost function NameOf(ops: TextOps, item: Item): Option<string> {
    var title, name, business := Field(item, "title"), Field(item, "name"), Field(item, "business_name");
    TextOf(ops, if !IsEmpty(title) then title else if !IsEmpty(name) then name else business)
  }

  lemma Emptiness(v: Value)
    ensures IsEmpty(v) <==> !Truthy(v)
  {
    match v
    case Null =>
    case Text(s) =>
    case Number(n) =>
    case Texts(ts) =>
  }

  lemma TextMeaning(ops: TextOps, v: Value)
    ensures ops.OptionalText(v) == TextOf(ops, v)
  {
  }

  lemma NameMeaning(ops: TextOps, item: Item)
    ensures ops.OptionalText(Or(Or(Get(item, "title"), Get(item, "name")), Get(item, "business_name")))
            == NameOf(ops, item)
  {
    var title, name, business := Get(item, "title"), Get(item, "name"), Get(item, "business_name");
    Emptiness(title);
    Emptiness(Or(title, name));
    Emptiness(name);
    TextMeaning(ops, Or(Or(title, name), business));
    hide TextOf, IsEmpty;
  }

  /** An item gives a profile with its own cid, place id and name and the row's query, unless it has none
      of the four. */
  lemma ItemProfileMeaning(ops: TextOps, source: Option<string>, item: Item)
    ensures |ItemProfile(ops, source, item)| <= 1
    ensures var cid, place, name := TextOf(ops, Field(item, "cid")), TextOf(ops, Field(item, "place_id")),
        NameOf(ops, item);
            && (ItemProfile(ops, source, item) == [] <==>
                cid == None && place == None && name == None && source == None)
            && (forall c :: c in ItemProfile(ops, source, item) ==>
                  && c.value.cid == cid && c.value.placeId == place && c.value.businessName == name
                  && c.value.sourceQuery == source)
  {
    TextMeaning(ops, Get(item, "cid"));
    TextMeaning(ops, Get(item, "place_id"));
    NameMeaning(ops, item);
    hide TextOf, NameOf;
  }

  /** A row without items stands for its own query, if it has one; otherwise its three best-ranked items,
      or however many the limit says, stand for it in rank order. */
  lemma RowProfileMeaning(ops: TextOps, row: Row, limit: nat)
    ensures var source := TextOf(ops, Field(row.fields, "keyword"));
            && (row.items == [] && source == None ==> RowProfile(ops, row, limit) == [])
            && (row.items == [] && source.Some? ==>
                  && |RowProfile(ops, row, limit)| == 1
                  && RowProfile(ops, row, limit)[0].value == Profile(None, None, None, source, "keyword", source.value)
                  && RowProfile(ops, row, limit)[0].key == "keyword:" + ops.lower(source.value))
            && (row.items != [] ==>
                  RowProfile(ops, row, limit) == Flat(ItemProfiles(ops, source), TopRankedItems(ops, row.items, limit)))
  {
    var source := TextOf(ops, Field(row.fields, "keyword"));
    assert ops.OptionalText(Get(row.fields, "keyword")) == source;
    if row.items == [] {
      assert TopRankedItems(ops, row.items, limit) == [];
      FlatNone(ItemProfiles(ops, source));
    }
  }

  // ----- The metro's maps tasks and their first keyword ------------------------------------

  function IsAnsweredMaps(metroId: string, d: Data): string -> bool {
    (id: string) =>
      id in d.categories.vals && d.categories.vals[id] == SerpMaps && id in d.metros && d.metros[id] == metroId
  }

  lemma {:induction false} MapsTasksFiltered(metroId: string, d: Data, ids: seq<string>)
    ensures MapsTasksAmong(metroId, d.categories.vals, d.metros, ids) == Filter(IsAnsweredMaps(metroId, d), ids)
  {
    if ids != [] {
      MapsTasksFiltered(metroId, d, Front(ids));
    }
  }

  /** The tasks searched are the answered maps tasks of the metro, in the order they were answered. */
  lemma MapsTasksMeaning(metroId: string, d: Data) returns (positions: seq<int>)
    ensures PicksAll(IsAnsweredMaps(metroId, d), d.categories.keys, MapsTaskIds(metroId, d), positions)
  {
    hide PicksAll;
    MapsTasksFiltered(metroId, d, d.categories.keys);
    positions := FilterPicksAll(IsAnsweredMaps(metroId, d), d.categories.keys);
  }

  ghost function RowsOfTasks(d: Data, ids: seq<string>): seq<Row> {
    if ids == [] then []
    else
      RowsOfTasks(d, Front(ids)) + if Last(ids) in d.results.vals then d.results.vals[Last(ids)] else []
  }

  /** The keyword of row i, the first row that has one. */
  ghost predicate FirstKeywordAt(ops: TextOps, rows: seq<Row>, i: int, keyword: string) {
    && 0 <= i < |rows| && !IsEmpty(Field(rows[i].fields, "keyword"))
    && keyword == ops.str(Field(rows[i].fields, "keyword"))
    && forall j :: 0 <= j < i ==> IsEmpty(Field(rows[j].fields, "keyword"))
  }

  lemma {:induction false} KeywordsOfRows(ops: TextOps, d: Data, ids: seq<string>)
    ensures Flat(TaskKeywords(ops, d.results.vals), ids) == Flat(RowKeyword(ops), RowsOfTasks(d, ids))
  {
    FlatNone(RowKeyword(ops));
    FlatNone(TaskKeywords(ops, d.results.vals));
    if ids != [] {
      hide Flat, RowKeyword;
      var front, last := Front(ids), Last(ids);
      assert ids == front + [last];
      KeywordsOfRows(ops, d, front);
      FlatSnoc(TaskKeywords(ops, d.results.vals), front, last);
      FlatConcat(RowKeyword(ops), RowsOfTasks(d, front), ResultsOf(d.results.vals, last));
    }
  }

  /** keyword is that of the first row that has one, if any has. */
  ghost predicate IsFirstKeyword(ops: TextOps, rows: seq<Row>, keyword: Option<string>) {
    && (keyword.Some? ==> exists i :: FirstKeywordAt(ops, rows, i, keyword.value))
    && (keyword.None? ==> forall i :: 0 <= i < |rows| ==> IsEmpty(Field(rows[i].fields, "keyword")))
  }

  lemma RowKeywordMeaning(ops: TextOps, row: Row)
    ensures var field := Field(row.fields, "keyword");
            RowKeyword(ops)(row) == if IsEmpty(field) then [] else [ops.str(field)]
  {
    var field := Get(row.fields, "keyword");
    Emptiness(field);
    assert RowKeyword(ops)(row) == if Truthy(field) then [ops.str(field)] else [];
  }

  function FirstOf(all: seq<string>): Option<string> {
    if all == [] then None else Some(all[0])
  }

  lemma OneMoreRow(ops: TextOps, front: seq<Row>, last: Row, before: Option<string>)
    requires IsFirstKeyword(ops, front, before)
    ensures IsFirstKeyword(ops, front + [last],
                           if before.Some? then before else FirstOf(RowKeyword(ops)(last)))
  {
    hide RowKeyword;
    RowKeywordMeaning(ops, last);
    var rows := front + [last];
    assert forall j :: 0 <= j < |front| ==> rows[j] == front[j];
    if before.Some? {
      var i :| FirstKeywordAt(ops, front, i, before.value);
      assert FirstKeywordAt(ops, rows, i, before.value);
    } else if !IsEmpty(Field(last.fields, "keyword")) {
      assert FirstKeywordAt(ops, rows, |front|, ops.str(Field(last.fields, "keyword")));
    }
  }

  lemma {:induction false} FirstKeyword(ops: TextOps, rows: seq<Row>)
    ensures IsFirstKeyword(ops, rows, FirstOf(Flat(RowKeyword(ops), rows)))
  {
    if rows == [] {
      FlatNone(RowKeyword(ops));
    } else {
      hide Flat, RowKeyword, IsFirstKeyword;
      var front, last := Front(rows), Last(rows);
      assert rows == front + [last];
      FirstKeyword(ops, front);
      FlatSnoc(RowKeyword(ops), front, last);
      OneMoreRow(ops, front, last, FirstOf(Flat(RowKeyword(ops), front)));
    }
  }

  /** The maps keyword is that of the first row, over the searched tasks in order, that has one. */
  lemma FirstMapsKeywordMeaning(ops: TextOps, metroId: string, d: Data)
    ensures IsFirstKeyword(ops, RowsOfTasks(d, MapsTaskIds(metroId, d)), FirstMapsKeyword(ops, metroId, d))
  {
    hide Flat, RowKeyword, RowsOfTasks, MapsTaskIds, IsFirstKeyword;
    KeywordsOfRows(ops, d, MapsTaskIds(metroId, d));
    FirstKeyword(ops, RowsOfTasks(d, MapsTaskIds(metroId, d)));
  }
}

/** The business profile a metro's maps results single out, and the first maps keyword. */
module MapsProfiles {
  import opened Containers
  import opened CollectionTypes
  import opened ExecutionState
  import opened TopResults

  const PROFILE_LIMIT: nat := 3

  datatype Profile = Profile(
    cid: Option<string>,
    placeId: Option<string>,
    businessName: Option<string>,
    sourceQuery: Option<string>,
    identifierMode: string,
    query: string)

  // ----- Ranking ---------------------------------------------------------------------------

  const RANK_FIELDS := ["rank_group", "rank", "position", "rank_absolute"]

  /** The first rank field that reads as a positive integer. */
  function RankFrom(ops: TextOps, item: Item, fields: seq<string>): Option<int> {
    if fields == [] then None
    else
      match ops.toInt(Get(item, fields[0]))
      case Some(n) => if n > 0 then Some(n) else RankFrom(ops, item, fields[1..])
      case None => RankFrom(ops, item, fields[1..])
  }

  function RankOf(ops: TextOps, item: Item): Option<int> {
    RankFrom(ops, item, RANK_FIELDS)
  }

  /** Ranked items come first, by rank; unranked items last. */
  predicate RankLeq(a: Option<int>, b: Option<int>) {
    match b
    case None => true
    case Some(n) => a.Some? && a.value <= n
  }

  function InsertByRank(ops: TextOps, sorted: seq<Item>, x: Item): seq<Item> {
    if sorted == [] || RankLeq(RankOf(ops, Last(sorted)), RankOf(ops, x)) then sorted + [x]
    else InsertByRank(ops, Front(sorted), x) + [Last(sorted)]
  }

  function SortByRank(ops: TextOps, items: seq<Item>): seq<Item> {
    if items == [] then [] else InsertByRank(ops, SortByRank(ops, Front(items)), Last(items))
  }

  function TopRankedItems(ops: TextOps, items: seq<Item>, limit: nat): seq<Item> {
    if exists i :: 0 <= i < |items| && RankOf(ops, items[i]) != None
    then Take(SortByRank(ops, items), limit)
    else Take(items, limit)
  }

  ghost predicate SortedByRank(ops: TextOps, items: seq<Item>) {
    forall i, j :: 0 <= i < j < |items| ==> RankLeq(RankOf(ops, items[i]), RankOf(ops, items[j]))
  }

  function HasRank(ops: TextOps, r: Option<int>): Item -> bool {
    (item: Item) => RankOf(ops, item) == r
  }

  lemma {:induction false} InsertByRankPermutes(ops: TextOps, sorted: seq<Item>, x: Item)
    ensures IsPermutation(InsertByRank(ops, sorted, x), sorted + [x])
  {
    hide RankOf, RankLeq;
    if sorted != [] && !RankLeq(RankOf(ops, Last(sorted)), RankOf(ops, x)) {
      InsertByRankPermutes(ops, Front(sorted), x);
      assert sorted == Front(sorted) + [Last(sorted)];
    }
  }

  lemma {:induction false} InsertByRankSorts(ops: TextOps, sorted: seq<Item>, x: Item)
    requires SortedByRank(ops, sorted)
    ensures SortedByRank(ops, InsertByRank(ops, sorted, x))
  {
    hide RankOf;
    if sorted != [] && !RankLeq(RankOf(ops, Last(sorted)), RankOf(ops, x)) {
      var front, last := Front(sorted), Last(sorted);
      var inserted := InsertByRank(ops, front, x);
      InsertByRankSorts(ops, front, x);
      InsertByRankPermutes(ops, front, x);
      PermutationLength(inserted, front + [x]);
      forall i | 0 <= i < |inserted| ensures RankLeq(RankOf(ops, inserted[i]), RankOf(ops, last)) {
        assert inserted[i] in front + [x];
      }
    }
  }

  lemma InsertKeepsFilter(ops: TextOps, front: seq<Item>, last: Item, x: Item, inserted: seq<Item>, r: Option<int>)
    requires RankOf(ops, last) != RankOf(ops, x)
    requires Filter(HasRank(ops, r), inserted) == Filter(HasRank(ops, r), front + [x])
    ensures Filter(HasRank(ops, r), inserted + [last]) == Filter(HasRank(ops, r), front + [last] + [x])
  {
    hide RankOf;
    var p := HasRank(ops, r);
    FilterSnoc(p, inserted, last);
    FilterSnoc(p, front, x);
    FilterSnoc(p, front + [last], x);
    FilterSnoc(p, front, last);
  }

  lemma {:induction false} InsertByRankStable(ops: TextOps, sorted: seq<Item>, x: Item, r: Option<int>)
    ensures Filter(HasRank(ops, r), InsertByRank(ops, sorted, x)) == Filter(HasRank(ops, r), sorted + [x])
  {
    hide RankOf;
    if sorted != [] && !RankLeq(RankOf(ops, Last(sorted)), RankOf(ops, x)) {
      InsertByRankStable(ops, Front(sorted), x, r);
      InsertKeepsFilter(ops, Front(sorted), Last(sorted), x, InsertByRank(ops, Front(sorted), x), r);
      assert sorted == Front(sorted) + [Last(sorted)];
    }
  }

  /** The ranking is a stable sort: a sorted permutation that keeps equal ranks in order. */
  lemma {:induction false} SortByRankCorrect(ops: TextOps, items: seq<Item>, r: Option<int>)
    ensures IsPermutation(SortByRank(ops, items), items)
    ensures SortedByRank(ops, SortByRank(ops, items))
    ensures Filter(HasRank(ops, r), SortByRank(ops, items)) == Filter(HasRank(ops, r), items)
  {
    hide RankOf;
    if items != [] {
      var sorted := SortByRank(ops, Front(items));
      SortByRankCorrect(ops, Front(items), r);
      InsertByRankPermutes(ops, sorted, Last(items));
      InsertByRankSorts(ops, sorted, Last(items));
      InsertByRankStable(ops, sorted, Last(items), r);
      FilterSnoc(HasRank(ops, r), sorted, Last(items));
      FilterSnoc(HasRank(ops, r), Front(items), Last(items));
      assert items == Front(items) + [Last(items)];
    }
  }

  // ----- Profiles --------------------------------------------------------------------------

  function Or(a: Value, b: Value): Value {
    if Truthy(a) then a else b
  }

  /** cid, then place id, then business name, then the query itself identifies a profile. */
  function ItemProfile(ops: TextOps, source: Option<string>, item: Item): seq<Keyed<Profile>> {
    var cid := ops.OptionalText(Get(item, "cid"));
    var placeId := ops.OptionalText(Get(item, "place_id"));
    var name := ops.OptionalText(Or(Or(Get(item, "title"), Get(item, "name")), Get(item, "business_name")));
    if cid.Some? then
      [Keyed("cid:" + cid.value, Profile(cid, placeId, name, source, "cid", cid.value))]
    else if placeId.Some? then
      [Keyed("place_id:" + placeId.value, Profile(cid, placeId, name, source, "place_id", placeId.value))]
    else if name.Some? then
      [Keyed("title:" + ops.lower(name.value), Profile(cid, placeId, name, source, "title", name.value))]
    else if source.Some? then
      [Keyed("keyword:" + ops.lower(source.value), Profile(cid, placeId, name, source, "keyword", source.value))]
    else []
  }

  function ItemProfiles(ops: TextOps, source: Option<string>): Item -> seq<Keyed<Profile>> {
    (item: Item) => ItemProfile(ops, source, item)
  }

  predicate IsMode(mode: string) {
    mode == "cid" || mode == "place_id" || mode == "title" || mode == "keyword"
  }

  /** Names and queries identify a profile whatever their case. */
  function Identity(ops: TextOps, p: Profile): string {
    if p.identifierMode == "cid" || p.identifierMode == "place_id" then p.query else ops.lower(p.query)
  }

  /** A profile is identified by the best identifier it has, and its key spells out which. */
  lemma ProfileMode(ops: TextOps, source: Option<string>, item: Item, c: Keyed<Profile>)
    requires c in ItemProfile(ops, source, item)
    ensures var p := c.value;
            && (p.identifierMode == "cid" <==> p.cid.Some?)
            && (p.identifierMode == "place_id" <==> p.cid.None? && p.placeId.Some?)
            && (p.identifierMode == "title" <==> p.cid.None? && p.placeId.None? && p.businessName.Some?)
            && (p.identifierMode == "keyword" <==> p.cid.None? && p.placeId.None? && p.businessName.None?)
            && Some(p.query) == (if p.cid.Some? then p.cid else if p.placeId.Some? then p.placeId
                                 else if p.businessName.Some? then p.businessName else p.sourceQuery)
    ensures IsMode(c.value.identifierMode)
    ensures c.key == c.value.identifierMode + ":" + Identity(ops, c.value)
  {
  }

  lemma ModePrefix(mode: string, mode': string, x: string, y: string)
    requires IsMode(mode) && IsMode(mode')
    ensures mode + ":" + x == mode' + ":" + y <==> mode == mode' && x == y
  {
    var a, b := mode + ":" + x, mode' + ":" + y;
    assert a[0] == mode[0] && b[0] == mode'[0];
    if a == b {
      assert mode == mode';
      assert a[|mode| + 1..] == x && b[|mode| + 1..] == y;
    }
  }

  /** Two profiles share a dedup key exactly when they are identified in the same way by the same
      identifier: keys of different kinds never collide. */
  lemma SameKeyMeansSameIdentity(
    ops: TextOps, source: Option<string>, item: Item, c: Keyed<Profile>,
    source': Option<string>, item': Item, c': Keyed<Profile>)
    requires c in ItemProfile(ops, source, item) && c' in ItemProfile(ops, source', item')
    ensures c.key == c'.key <==>
      c.value.identifierMode == c'.value.identifierMode && Identity(ops, c.value) == Identity(ops, c'.value)
  {
    hide ItemProfile, Identity, IsMode;
    ProfileMode(ops, source, item, c);
    ProfileMode(ops, source', item', c');
    ModePrefix(c.value.identifierMode, c'.value.identifierMode, Identity(ops, c.value), Identity(ops, c'.value));
  }

  /** A row without items stands for its own query; otherwise its best-ranked items count. */
  function RowProfile(ops: TextOps, row: Row, limit: nat): seq<Keyed<Profile>> {
    var source := ops.OptionalText(Get(row.fields, "keyword"));
    (if row.items == [] && source.Some?
     then [Keyed("keyword:" + ops.lower(source.value),
                 Profile(None, None, None, source, "keyword", source.value))]
     else [])
    + Flat(ItemProfiles(ops, source), TopRankedItems(ops, row.items, limit))
  }

  function RowProfiles(ops: TextOps, limit: nat): Row -> seq<Keyed<Profile>> {
    (row: Row) => RowProfile(ops, row, limit)
  }

  function TaskProfiles(ops: TextOps, results: Results, limit: nat): string -> seq<Keyed<Profile>> {
    (id: string) => Flat(RowProfiles(ops, limit), ResultsOf(results, id))
  }

  predicate IsMapsTask(metroId: string, categories: map<string, TaskType>, metros: map<string, string>, id: string) {
    && id in categories && categories[id] == SerpMaps
    && id in metros && metros[id] == metroId
  }

  /** The maps tasks of the metro among ids. */
  function MapsTasksAmong(metroId: string, categories: map<string, TaskType>, metros: map<string, string>,
                          ids: seq<string>): seq<string>
  {
    if ids == [] then []
    else
      MapsTasksAmong(metroId, categories, metros, Front(ids))
      + if IsMapsTask(metroId, categories, metros, Last(ids)) then [Last(ids)] else []
  }

  /** The answered maps tasks of the metro, in the order they were answered. */
  function MapsTaskIds(metroId: string, d: Data): seq<string> {
    MapsTasksAmong(metroId, d.categories.vals, d.metros, d.categories.keys)
  }

  function ProfileCandidates(ops: TextOps, metroId: string, d: Data, limit: nat): seq<Keyed<Profile>> {
    Flat(TaskProfiles(ops, d.results.vals, limit), MapsTaskIds(metroId, d))
  }

  function TopMapsProfiles(ops: TextOps, metroId: string, d: Data, limit: nat): seq<Profile> {
    TopByKey(ProfileCandidates(ops, metroId, d, limit), limit)
  }

  function BestMapsProfile(ops: TextOps, metroId: string, d: Data): Option<Profile> {
    var profiles := TopMapsProfiles(ops, metroId, d, PROFILE_LIMIT);
    if profiles == [] then None else Some(profiles[0])
  }

  /** Keeps candidates in order until the limit is reached. */
  method KeepAll<V>(
      cands: seq<Keyed<V>>, limit: nat, ghost before: seq<Keyed<V>>, kept: seq<Keyed<V>>, seen: set<string>)
    returns (kept': seq<Keyed<V>>, seen': set<string>, full: bool)
    requires kept == Take(FirstByKey(before), limit) && seen == Keys(kept) && |kept| < limit
    ensures kept' == Take(FirstByKey(before + cands), limit)
    ensures seen' == Keys(kept') && |kept'| <= limit && (full <==> |kept'| == limit)
  {
    hide FirstByKey, Take, Keys;
    kept', seen', full := kept, seen, false;
    assert before + cands[..0] == before;
    for i := 0 to |cands|
      invariant kept' == Take(FirstByKey(before + cands[..i]), limit)
      invariant seen' == Keys(kept') && |kept'| < limit && !full
    {
      assert before + cands[..i + 1] == before + cands[..i] + [cands[i]];
      kept', seen', full := KeepFirst(before + cands[..i], kept', seen', cands[i], limit);
      if full {
        assert before + cands == before + cands[..i + 1] + cands[i + 1..];
        FullIsFinal(before + cands[..i + 1], cands[i + 1..], limit);
        return;
      }
    }
    assert cands[..|cands|] == cands;
  }

  method SearchProfileRows(ops: TextOps, rows: seq<Row>, limit: nat,
                           ghost before: seq<Keyed<Profile>>, kept: seq<Keyed<Profile>>, seen: set<string>)
    returns (kept': seq<Keyed<Profile>>, seen': set<string>, full: bool)
    requires kept == Take(FirstByKey(before), limit) && seen == Keys(kept) && |kept| < limit
    ensures kept' == Take(FirstByKey(before + Flat(RowProfiles(ops, limit), rows)), limit)
    ensures seen' == Keys(kept') && |kept'| <= limit && (full <==> |kept'| == limit)
  {
    hide FirstByKey, Take, Keys, RowProfile;
    ghost var f := RowProfiles(ops, limit);
    kept', seen', full := kept, seen, false;
    assert before + Flat(f, rows[..0]) == before;
    for i := 0 to |rows|
      invariant kept' == Take(FirstByKey(before + Flat(f, rows[..i])), limit)
      invariant seen' == Keys(kept') && |kept'| < limit && !full
    {
      FlatStep(f, rows, i, before, limit);
      kept', seen', full := KeepAll(RowProfile(ops, rows[i], limit), limit, before + Flat(f, rows[..i]), kept', seen');
      if full { return; }
    }
    assert rows[..|rows|] == rows;
  }

  method TopMapsProfilesForMetro(ops: TextOps, metroId: string, state: State, limit: nat)
    returns (profiles: seq<Profile>)
    requires limit > 0
    ensures profiles == TopMapsProfiles(ops, metroId, state.View(), limit)
  {
    hide FirstByKey, Take, Keys, MapsTaskIds, RowProfiles, Flat;
    FlatNone(TaskProfiles(ops, state.View().results.vals, limit));
    ghost var d := state.View();
    ghost var f := TaskProfiles(ops, d.results.vals, limit);
    var ids := MapsTaskIds(metroId, state.View());
    var kept: seq<Keyed<Profile>>, seen: set<string>, full := [], {}, false;
    ghost var none: seq<Keyed<Profile>> := [];
    NothingKept<Profile>(limit);
    assert none + Flat(f, ids[..0]) == none;
    for i := 0 to |ids|
      invariant kept == Take(FirstByKey(none + Flat(f, ids[..i])), limit)
      invariant seen == Keys(kept) && |kept| < limit && !full
    {
      FlatStep(f, ids, i, none, limit);
      var rows := ResultsOf(state.taskResults.vals, ids[i]);
      kept, seen, full := SearchProfileRows(ops, rows, limit, none + Flat(f, ids[..i]), kept, seen);
      if full {
        assert none + Flat(f, ids) == Flat(f, ids);
        return Values(kept);
      }
    }
    assert ids[..|ids|] == ids;
    assert none + Flat(f, ids) == Flat(f, ids);
    profiles := Values(kept);
  }

  lemma {:induction false} FirstIsKept<V>(xs: seq<Keyed<V>>)
    requires xs != []
    ensures FirstByKey(xs) != [] && FirstByKey(xs)[0] == xs[0]
  {
    if |xs| > 1 {
      FirstIsKept(Front(xs));
    }
  }

  /** The profile used is the very first candidate, whatever the limit of three keeps beside it. */
  lemma BestProfileIsFirstCandidate(ops: TextOps, metroId: string, d: Data)
    ensures var all := ProfileCandidates(ops, metroId, d, PROFILE_LIMIT);
            BestMapsProfile(ops, metroId, d) == if all == [] then None else Some(all[0].value)
  {
    hide ProfileCandidates;
    var all := ProfileCandidates(ops, metroId, d, PROFILE_LIMIT);
    if all != [] {
      FirstIsKept(all);
    }
  }

  // ----- The first maps keyword ------------------------------------------------------------

  function RowKeyword(ops: TextOps): Row -> seq<string> {
    (row: Row) =>
      var keyword := Get(row.fields, "keyword");
      if Truthy(keyword) then [ops.str(keyword)] else []
  }

  function TaskKeywords(ops: TextOps, results: Results): string -> seq<string> {
    (id: string) => Flat(RowKeyword(ops), ResultsOf(results, id))
  }

  function MapsKeywords(ops: TextOps, metroId: string, d: Data): seq<string> {
    Flat(TaskKeywords(ops, d.results.vals), MapsTaskIds(metroId, d))
  }

  function FirstMapsKeyword(ops: TextOps, metroId: string, d: Data): Option<string> {
    var all := MapsKeywords(ops, metroId, d);
    if all == [] then None else Some(all[0])
  }

  lemma FlatSplit<T, R>(f: T -> seq<R>, xs: seq<T>, i: nat)
    requires i < |xs|
    ensures Flat(f, xs[..i + 1]) == Flat(f, xs[..i]) + f(xs[i])
    ensures Flat(f, xs) == Flat(f, xs[..i]) + f(xs[i]) + Flat(f, xs[i + 1..])
  {
    assert Front(xs[..i + 1]) == xs[..i];
    FlatAround(f, xs, i);
  }

  method FirstRowKeyword(ops: TextOps, rows: seq<Row>) returns (keyword: Option<string>)
    ensures var all := Flat(RowKeyword(ops), rows);
            keyword == if all == [] then None else Some(all[0])
  {
    for i := 0 to |rows|
      invariant Flat(RowKeyword(ops), rows[..i]) == []
    {
      FlatSplit(RowKeyword(ops), rows, i);
      var value := Get(rows[i].fields, "keyword");
      if Truthy(value) { return Some(ops.str(value)); }
    }
    assert rows[..|rows|] == rows;
    keyword := None;
  }

  method FirstMapsKeywordForMetro(ops: TextOps, metroId: string, state: State) returns (keyword: Option<string>)
    ensures keyword == FirstMapsKeyword(ops, metroId, state.View())
  {
    hide MapsTaskIds, RowKeyword;
    ghost var f := TaskKeywords(ops, state.taskResults.vals);
    var ids := MapsTaskIds(metroId, state.View());
    for i := 0 to |ids|
      invariant Flat(f, ids[..i]) == []
    {
      FlatSplit(f, ids, i);
      keyword := FirstRowKeyword(ops, ResultsOf(state.taskResults.vals, ids[i]));
      if keyword.Some? { return; }
    }
    assert ids[..|ids|] == ids;
    keyword := None;
  }
}

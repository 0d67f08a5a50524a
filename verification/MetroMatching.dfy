/** Matching a metro to one location of the provider's catalog. */
module MetroMatching {
  import opened Containers

  type Norm = string -> string

  datatype DfsLocation = DfsLocation(code: int, name: string, city: string, state: string)

  /** A metro with the city and state candidates read, and stripped, from its columns: principal city
      values, the whole prefix of its name, the tokens the prefix splits into, and its state codes. */
  datatype Metro = Metro(
    cbsaCode: string,
    principals: seq<string>,
    wholes: seq<string>,
    splits: seq<string>,
    states: set<string>,
    existing: seq<int>)

  /** The fixed reason texts of the source, by name. */
  datatype Reason =
    | CompatibleExistingCode
    | IncompatibleExistingCodes
    | SeveralRowsForACity
    | SeveralCodesAcrossCities
    | PrincipalCityMatched
    | WholeNameMatched
    | OnlySplitTokensMatched
    | NothingMatched

  datatype Status = AlreadyReady | InvalidExistingCode | Ambiguous | Exact | Strong | NoMatch

  datatype Match = Match(
    cbsaCode: string,
    status: Status,
    code: Option<int>,
    name: Option<string>,
    city: Option<string>,
    reason: Reason,
    existing: seq<int>)

  // ----- Candidate cities ------------------------------------------------------------------

  function Norms(norm: Norm, values: seq<string>): set<string> {
    set v | v in values :: norm(v)
  }

  /** Values whose normal form is not empty and did not occur before, in order. */
  function DedupePreserveOrder(norm: Norm, values: seq<string>): seq<string> {
    if values == [] then []
    else
      var kept := DedupePreserveOrder(norm, Front(values));
      if norm(Last(values)) == "" || norm(Last(values)) in Norms(norm, kept) then kept else kept + [Last(values)]
  }

  /** The value at i has a normal form, and it is the first with it. */
  ghost predicate FirstWithNorm(norm: Norm, values: seq<string>, i: int) {
    && 0 <= i < |values| && norm(values[i]) != ""
    && forall j :: 0 <= j < i ==> norm(values[j]) != norm(values[i])
  }

  /** kept lists the values at the given positions, which are in order and are exactly the firsts. */
  ghost predicate KeepsFirsts(norm: Norm, values: seq<string>, kept: seq<string>, positions: seq<int>) {
    && |positions| == |kept|
    && (forall a, b :: 0 <= a < b < |positions| ==> positions[a] < positions[b])
    && (forall a :: 0 <= a < |positions| ==>
        FirstWithNorm(norm, values, positions[a]) && kept[a] == values[positions[a]])
    && (forall i :: FirstWithNorm(norm, values, i) ==> i in positions)
  }

  lemma FirstInFront(norm: Norm, front: seq<string>, last: string, i: int)
    requires 0 <= i < |front|
    ensures FirstWithNorm(norm, front + [last], i) == FirstWithNorm(norm, front, i)
  {
    assert forall j :: 0 <= j <= i ==> (front + [last])[j] == front[j];
  }

  lemma FirstInside(norm: Norm, values: seq<string>, i: int)
    requires FirstWithNorm(norm, values, i)
    ensures 0 <= i < |values|
  {
  }

  lemma KeepsStep(norm: Norm, front: seq<string>, last: string, kept: seq<string>, positions: seq<int>)
    requires KeepsFirsts(norm, front, kept, positions)
    ensures FirstWithNorm(norm, front + [last], |front|) ==>
      KeepsFirsts(norm, front + [last], kept + [last], positions + [|front|])
    ensures !FirstWithNorm(norm, front + [last], |front|) ==> KeepsFirsts(norm, front + [last], kept, positions)
  {
    var values := front + [last];
    forall i | 0 <= i < |front| ensures FirstWithNorm(norm, front, i) == FirstWithNorm(norm, values, i) {
      FirstInFront(norm, front, last, i);
    }
    hide FirstWithNorm;
    assert forall i :: i in positions + [|front|] <==> i in positions || i == |front|;
    forall i | FirstWithNorm(norm, values, i) ensures i in positions || i == |front| {
      FirstInside(norm, values, i);
    }
  }

  lemma NormsSnoc(norm: Norm, values: seq<string>, v: string)
    ensures Norms(norm, values + [v]) == Norms(norm, values) + {norm(v)}
  {
  }

  lemma {:induction false} DedupeNorms(norm: Norm, values: seq<string>)
    ensures var kept := DedupePreserveOrder(norm, values);
            && (forall a, b :: 0 <= a < b < |kept| ==> norm(kept[a]) != norm(kept[b]))
            && Norms(norm, kept) == Norms(norm, values) - {""}
  {
    if values != [] {
      var front, last := Front(values), Last(values);
      assert values == front + [last];
      DedupeNorms(norm, front);
      NormsSnoc(norm, front, last);
      NormsSnoc(norm, DedupePreserveOrder(norm, front), last);
    }
  }

  lemma LastIsFirst(norm: Norm, values: seq<string>)
    requires values != []
    ensures FirstWithNorm(norm, values, |values| - 1) <==>
        norm(Last(values)) != "" && norm(Last(values)) !in Norms(norm, Front(values))
  {
    assert forall j :: 0 <= j < |values| - 1 ==> Front(values)[j] == values[j];
  }

  /** What is kept: the first value of every non-empty normal form, in order; so normal forms are
      pairwise different and none but the empty one is lost. */
  lemma {:induction false} DedupeMeaning(norm: Norm, values: seq<string>) returns (positions: seq<int>)
    ensures var kept := DedupePreserveOrder(norm, values);
            && KeepsFirsts(norm, values, kept, positions)
            && (forall a, b :: 0 <= a < b < |kept| ==> norm(kept[a]) != norm(kept[b]))
            && Norms(norm, kept) == Norms(norm, values) - {""}
  {
    DedupeNorms(norm, values);
    positions := [];
    if values != [] {
      hide KeepsFirsts, FirstWithNorm;
      var front, last := Front(values), Last(values);
      assert values == front + [last];
      positions := DedupeMeaning(norm, front);
      LastIsFirst(norm, values);
      KeepsStep(norm, front, last, DedupePreserveOrder(norm, front), positions);
      if FirstWithNorm(norm, values, |front|) {
        positions := positions + [|front|];
      }
    }
  }

  function Stripped(strip: string -> string, values: seq<string>): seq<string> {
    seq(|values|, i requires 0 <= i < |values| => strip(values[i]))
  }

  lemma KeptValues(norm: Norm, values: seq<string>, kept: seq<string>, positions: seq<int>)
    requires KeepsFirsts(norm, values, kept, positions)
    ensures forall v :: v in kept ==> v in values
  {
  }

  /** Keeps, stripped, the first value of every non-empty normal form, in order; values that are
      stripped already are kept as they are. */
  method Dedupe(norm: Norm, strip: string -> string, values: seq<string>) returns (result: seq<string>)
    ensures var kept := DedupePreserveOrder(norm, values);
            && result == Stripped(strip, kept)
            && ((forall v :: v in values ==> strip(v) == v) ==> result == kept)
            && (exists positions :: KeepsFirsts(norm, values, kept, positions))
            && (forall a, b :: 0 <= a < b < |kept| ==> norm(kept[a]) != norm(kept[b]))
            && Norms(norm, kept) == Norms(norm, values) - {""}
  {
    hide KeepsFirsts;
    result := [];
    var seen: set<string> := {};
    for i := 0 to |values|
      invariant result == Stripped(strip, DedupePreserveOrder(norm, values[..i]))
      invariant seen == Norms(norm, DedupePreserveOrder(norm, values[..i]))
    {
      assert values[..i + 1] == values[..i] + [values[i]];
      assert Front(values[..i + 1]) == values[..i];
      ghost var kept := DedupePreserveOrder(norm, values[..i]);
      var normalized := norm(values[i]);
      if normalized == "" || normalized in seen { continue; }
      NormsSnoc(norm, kept, values[i]);
      seen := seen + {normalized};
      result := result + [strip(values[i])];
    }
    assert values[..|values|] == values;
    var positions := DedupeMeaning(norm, values);
    KeptValues(norm, values, DedupePreserveOrder(norm, values), positions);
  }

  // ----- Hits ------------------------------------------------------------------------------

  function IsHit(norm: Norm, states: set<string>, city: string): DfsLocation -> bool {
    (row: DfsLocation) => norm(row.city) == norm(city) && row.state in states
  }

  function RowsFor(norm: Norm, states: set<string>, catalog: seq<DfsLocation>, city: string): seq<DfsLocation> {
    Filter(IsHit(norm, states, city), catalog)
  }

  type Hits = Dict<string, seq<DfsLocation>>

  function HitsFor(norm: Norm, states: set<string>, catalog: seq<DfsLocation>, cities: seq<string>): Hits {
    if cities == [] then EmptyDict()
    else
      var before := HitsFor(norm, states, catalog, Front(cities));
      var rows := RowsFor(norm, states, catalog, Last(cities));
      if rows == [] then before else before.Put(Last(cities), rows)
  }

  method HitsForCityTokens(norm: Norm, cities: seq<string>, states: set<string>, catalog: seq<DfsLocation>)
    returns (hits: Hits)
    ensures hits == HitsFor(norm, states, catalog, cities)
  {
    hits := EmptyDict();
    for i := 0 to |cities|
      invariant hits == HitsFor(norm, states, catalog, cities[..i])
    {
      assert Front(cities[..i + 1]) == cities[..i];
      var rows := RowsFor(norm, states, catalog, cities[i]);
      if rows != [] { hits := hits.Put(cities[i], rows); }
    }
    assert cities[..|cities|] == cities;
  }

  /** Adds the entries of more whose key is missing (dict.setdefault). */
  function WithDefaults(hits: Hits, more: Hits, keys: seq<string>): Hits
    requires forall k :: k in keys ==> k in more.vals
  {
    if keys == [] then hits
    else
      var before := WithDefaults(hits, more, Front(keys));
      assert Last(keys) in keys;
      if Last(keys) in before.vals then before else before.Put(Last(keys), more.vals[Last(keys)])
  }

  /** The hits that say something wrong about a metro: several rows for a city, or cities with
      rows of different codes. */
  predicate SeveralRows(hits: Hits) {
    exists k :: k in hits.vals && |hits.vals[k]| > 1
  }

  function SingleCodes(hits: Hits): set<int> {
    set k | k in hits.vals && |hits.vals[k]| == 1 :: hits.vals[k][0].code
  }

  function AmbiguousReason(hits: Hits): Option<Reason> {
    if SeveralRows(hits) then Some(SeveralRowsForACity)
    else if |SingleCodes(hits)| > 1 then Some(SeveralCodesAcrossCities)
    else None
  }

  /** The first city of the hits with exactly one row. */
  function FirstSingle(hits: Hits, keys: seq<string>): Option<string>
    requires forall k :: k in keys ==> k in hits.vals
  {
    if keys == [] then None
    else if |hits.vals[keys[0]]| == 1 then Some(keys[0])
    else FirstSingle(hits, keys[1..])
  }

  function Principals(norm: Norm, m: Metro): seq<string> {
    DedupePreserveOrder(norm, m.principals)
  }

  function Wholes(norm: Norm, m: Metro): seq<string> {
    DedupePreserveOrder(norm, m.wholes)
  }

  function IsCompatible(norm: Norm, m: Metro): DfsLocation -> bool {
    (row: DfsLocation) =>
      row.code in m.existing && row.state in m.states
      && norm(row.city) in Norms(norm, Principals(norm, m) + Wholes(norm, m))
  }

  function Splits(norm: Norm, m: Metro): seq<string> {
    DedupePreserveOrder(norm, m.splits)
  }

  function CompatibleExistingRows(norm: Norm, m: Metro, catalog: seq<DfsLocation>): seq<DfsLocation> {
    Filter(IsCompatible(norm, m), catalog)
  }

  // ----- The decision ----------------------------------------------------------------------

  function Selected(m: Metro, status: Status, row: DfsLocation, city: Option<string>, reason: Reason): Match {
    Match(m.cbsaCode, status, Some(row.code), Some(row.name), city, reason, m.existing)
  }

  function Unselected(m: Metro, status: Status, reason: Reason): Match {
    Match(m.cbsaCode, status, None, None, None, reason, m.existing)
  }

  lemma {:induction false} HitsKeys(norm: Norm, states: set<string>, catalog: seq<DfsLocation>, cities: seq<string>)
    ensures var h := HitsFor(norm, states, catalog, cities);
            && h.Valid()
            && (forall k :: k in h.vals <==> k in cities && RowsFor(norm, states, catalog, k) != [])
            && (forall k :: k in h.vals ==> h.vals[k] == RowsFor(norm, states, catalog, k))
  {
    hide RowsFor;
    if cities != [] {
      HitsKeys(norm, states, catalog, Front(cities));
      assert cities == Front(cities) + [Last(cities)];
    }
  }

  function PrincipalHits(norm: Norm, m: Metro, catalog: seq<DfsLocation>): Hits {
    HitsFor(norm, m.states, catalog, Principals(norm, m))
  }

  function WholeHits(norm: Norm, m: Metro, catalog: seq<DfsLocation>): Hits {
    HitsFor(norm, m.states, catalog, Wholes(norm, m))
  }

  function SplitHits(norm: Norm, m: Metro, catalog: seq<DfsLocation>): Hits {
    HitsFor(norm, m.states, catalog, Splits(norm, m))
  }

  /** The hits of all candidate cities in one dictionary. */
  function AllHits(norm: Norm, m: Metro, catalog: seq<DfsLocation>): Hits {
    HitsKeys(norm, m.states, catalog, Wholes(norm, m));
    HitsKeys(norm, m.states, catalog, Splits(norm, m));
    var whole, split := WholeHits(norm, m, catalog), SplitHits(norm, m, catalog);
    WithDefaults(WithDefaults(PrincipalHits(norm, m, catalog), whole, whole.keys), split, split.keys)
  }

  lemma {:induction false} FirstSingleIsKey(hits: Hits, keys: seq<string>)
    requires forall k :: k in keys ==> k in hits.vals
    ensures var c := FirstSingle(hits, keys);
            && (c.Some? ==> c.value in keys && |hits.vals[c.value]| == 1)
            && (c.None? ==> forall k :: k in keys ==> |hits.vals[k]| != 1)
  {
    if keys != [] && |hits.vals[keys[0]]| != 1 {
      FirstSingleIsKey(hits, keys[1..]);
    }
  }

  /** The decision for a metro without location codes. */
  function FreshMatch(norm: Norm, m: Metro, catalog: seq<DfsLocation>): Match {
    HitsKeys(norm, m.states, catalog, Principals(norm, m));
    HitsKeys(norm, m.states, catalog, Wholes(norm, m));
    var principal, whole := PrincipalHits(norm, m, catalog), WholeHits(norm, m, catalog);
    var ambiguous := AmbiguousReason(AllHits(norm, m, catalog));
    var exact, strong := FirstSingle(principal, principal.keys), FirstSingle(whole, whole.keys);
    if ambiguous.Some? then Unselected(m, Ambiguous, ambiguous.value)
    else if exact.Some? then
      FirstSingleIsKey(principal, principal.keys);
      Selected(m, Exact, principal.vals[exact.value][0], exact, PrincipalCityMatched)
    else if strong.Some? then
      FirstSingleIsKey(whole, whole.keys);
      Selected(m, Strong, whole.vals[strong.value][0], strong, WholeNameMatched)
    else if SplitHits(norm, m, catalog).keys != [] then
      Unselected(m, Ambiguous, OnlySplitTokensMatched)
    else
      Unselected(m, NoMatch, NothingMatched)
  }

  function MatchMetro(norm: Norm, m: Metro, catalog: seq<DfsLocation>): Match {
    var existing := CompatibleExistingRows(norm, m, catalog);
    if existing != [] then
      Selected(m, AlreadyReady, existing[0], None, CompatibleExistingCode)
    else if m.existing != [] then
      Unselected(m, InvalidExistingCode, IncompatibleExistingCodes)
    else
      FreshMatch(norm, m, catalog)
  }

  // ----- What a verdict means --------------------------------------------------------------

  /** Every city the metro can be looked up by. */
  function CandidateCities(norm: Norm, m: Metro): seq<string> {
    Principals(norm, m) + Wholes(norm, m) + Splits(norm, m)
  }

  lemma {:induction false} DefaultsKeys(hits: Hits, more: Hits, keys: seq<string>)
    requires hits.Valid() && forall k :: k in keys ==> k in more.vals
    ensures var r := WithDefaults(hits, more, keys);
            && r.Valid()
            && (forall k :: k in r.vals <==> k in hits.vals || k in keys)
            && (forall k :: k in r.vals ==> r.vals[k] == if k in hits.vals then hits.vals[k] else more.vals[k])
  {
    if keys != [] {
      assert keys == Front(keys) + [Last(keys)];
      DefaultsKeys(hits, more, Front(keys));
    }
  }

  /** The combined dictionary maps exactly the candidate cities with rows to their rows. */
  lemma AllHitsMeaning(norm: Norm, m: Metro, catalog: seq<DfsLocation>)
    ensures var h := AllHits(norm, m, catalog);
            && (forall k :: k in h.vals <==>
                  k in CandidateCities(norm, m) && RowsFor(norm, m.states, catalog, k) != [])
            && (forall k :: k in h.vals ==> h.vals[k] == RowsFor(norm, m.states, catalog, k))
  {
    hide RowsFor, Principals, Wholes, Splits;
    HitsKeys(norm, m.states, catalog, Principals(norm, m));
    HitsKeys(norm, m.states, catalog, Wholes(norm, m));
    HitsKeys(norm, m.states, catalog, Splits(norm, m));
    var principal, whole := PrincipalHits(norm, m, catalog), WholeHits(norm, m, catalog);
    var split := SplitHits(norm, m, catalog);
    DefaultsKeys(principal, whole, whole.keys);
    DefaultsKeys(WithDefaults(principal, whole, whole.keys), split, split.keys);
  }

  /** No candidate city has two rows. */
  ghost predicate NoCityTwice(norm: Norm, m: Metro, catalog: seq<DfsLocation>) {
    forall k :: k in CandidateCities(norm, m) ==> |RowsFor(norm, m.states, catalog, k)| <= 1
  }

  ghost predicate HasRows(norm: Norm, m: Metro, catalog: seq<DfsLocation>, city: string) {
    city in CandidateCities(norm, m) && RowsFor(norm, m.states, catalog, city) != []
  }

  /** All rows the candidate cities have carry one code. */
  ghost predicate OneCode(norm: Norm, m: Metro, catalog: seq<DfsLocation>) {
    forall j, k :: HasRows(norm, m, catalog, j) && HasRows(norm, m, catalog, k) ==>
      RowsFor(norm, m.states, catalog, j)[0].code == RowsFor(norm, m.states, catalog, k)[0].code
  }

  ghost predicate Unanimous(norm: Norm, m: Metro, catalog: seq<DfsLocation>) {
    NoCityTwice(norm, m, catalog) && OneCode(norm, m, catalog)
  }

  ghost predicate HitBy(norm: Norm, m: Metro, catalog: seq<DfsLocation>, cities: seq<string>) {
    exists k :: k in cities && RowsFor(norm, m.states, catalog, k) != []
  }

  lemma TwoElements<T(!new)>(s: set<T>)
    requires |s| > 1
    ensures exists x, y :: x in s && y in s && x != y
  {
    assert s != {};
    var x :| x in s;
    var rest := s - {x};
    assert |rest| == |s| - 1 && rest != {};
    var y :| y in rest;
    assert x in s && y in s && x != y;
  }

  lemma MoreThanOne(s: set<int>, x: int, y: int)
    requires x in s && y in s && x != y
    ensures |s| > 1
  {
    assert s == {x, y} + (s - {x, y});
  }

  lemma SeveralMeaning(norm: Norm, m: Metro, catalog: seq<DfsLocation>)
    ensures SeveralRows(AllHits(norm, m, catalog)) <==> !NoCityTwice(norm, m, catalog)
  {
    hide RowsFor, CandidateCities, AllHits;
    AllHitsMeaning(norm, m, catalog);
    if !NoCityTwice(norm, m, catalog) {
      var k :| k in CandidateCities(norm, m) && |RowsFor(norm, m.states, catalog, k)| > 1;
      assert k in AllHits(norm, m, catalog).vals;
    }
  }

  lemma CodesMeaning(norm: Norm, m: Metro, catalog: seq<DfsLocation>)
    requires NoCityTwice(norm, m, catalog)
    ensures |SingleCodes(AllHits(norm, m, catalog))| <= 1 <==> OneCode(norm, m, catalog)
  {
    hide RowsFor, CandidateCities, AllHits;
    AllHitsMeaning(norm, m, catalog);
    var h := AllHits(norm, m, catalog);
    if |SingleCodes(h)| > 1 {
      TwoElements(SingleCodes(h));
      var x, y :| x in SingleCodes(h) && y in SingleCodes(h) && x != y;
      var j :| j in h.vals && |h.vals[j]| == 1 && h.vals[j][0].code == x;
      var k :| k in h.vals && |h.vals[k]| == 1 && h.vals[k][0].code == y;
      assert HasRows(norm, m, catalog, j) && HasRows(norm, m, catalog, k);
    }
    if !OneCode(norm, m, catalog) {
      var j, k :| HasRows(norm, m, catalog, j) && HasRows(norm, m, catalog, k)
        && RowsFor(norm, m.states, catalog, j)[0].code != RowsFor(norm, m.states, catalog, k)[0].code;
      assert j in h.vals && k in h.vals && |h.vals[j]| == 1 && |h.vals[k]| == 1;
      MoreThanOne(SingleCodes(h), h.vals[j][0].code, h.vals[k][0].code);
    }
  }

  lemma AmbiguousMeaning(norm: Norm, m: Metro, catalog: seq<DfsLocation>)
    ensures AmbiguousReason(AllHits(norm, m, catalog)).None? <==> Unanimous(norm, m, catalog)
  {
    hide SeveralRows, SingleCodes, AllHits, NoCityTwice, OneCode;
    SeveralMeaning(norm, m, catalog);
    if NoCityTwice(norm, m, catalog) {
      CodesMeaning(norm, m, catalog);
    }
  }

  /** Without ambiguity, the first single hit exists exactly when some city has rows. */
  lemma SingleMeaning(norm: Norm, m: Metro, catalog: seq<DfsLocation>, cities: seq<string>)
    requires Unanimous(norm, m, catalog)
    requires forall k :: k in cities ==> k in CandidateCities(norm, m)
    ensures var h := HitsFor(norm, m.states, catalog, cities);
            && (forall k :: k in h.keys ==> k in h.vals)
            && (FirstSingle(h, h.keys).Some? <==> HitBy(norm, m, catalog, cities))
            && (FirstSingle(h, h.keys).Some? ==>
                  var city := FirstSingle(h, h.keys).value;
                  && city in h.vals && HasRows(norm, m, catalog, city)
                  && h.vals[city] == RowsFor(norm, m.states, catalog, city))
  {
    hide RowsFor, CandidateCities, OneCode;
    HitsKeys(norm, m.states, catalog, cities);
    var h := HitsFor(norm, m.states, catalog, cities);
    FirstSingleIsKey(h, h.keys);
    if HitBy(norm, m, catalog, cities) {
      var k :| k in cities && RowsFor(norm, m.states, catalog, k) != [];
      assert k in h.keys && |h.vals[k]| == 1;
    }
  }

  lemma SplitMeaning(norm: Norm, m: Metro, catalog: seq<DfsLocation>)
    ensures SplitHits(norm, m, catalog).keys != [] <==> HitBy(norm, m, catalog, Splits(norm, m))
  {
    hide RowsFor, Splits;
    HitsKeys(norm, m.states, catalog, Splits(norm, m));
    var h := SplitHits(norm, m, catalog);
    if h.keys != [] {
      assert h.keys[0] in h.vals;
    }
  }

  lemma NothingCompatible(norm: Norm, m: Metro, catalog: seq<DfsLocation>)
    requires m.existing == []
    ensures CompatibleExistingRows(norm, m, catalog) == []
  {
    var rows := CompatibleExistingRows(norm, m, catalog);
    if rows != [] {
      FilterMember(IsCompatible(norm, m), catalog, rows[0]);
    }
  }

  /** When each verdict is given to a metro without location codes. */
  lemma VerdictMeaning(norm: Norm, m: Metro, catalog: seq<DfsLocation>)
    requires m.existing == []
    ensures var status := MatchMetro(norm, m, catalog).status;
            var unanimous := Unanimous(norm, m, catalog);
            var principal := HitBy(norm, m, catalog, Principals(norm, m));
            var whole := HitBy(norm, m, catalog, Wholes(norm, m));
            var split := HitBy(norm, m, catalog, Splits(norm, m));
            && (status == Exact <==> unanimous && principal)
            && (status == Strong <==> unanimous && !principal && whole)
            && (status == Ambiguous <==> !unanimous || (!principal && !whole && split))
            && (status == NoMatch <==> unanimous && !principal && !whole && !split)
  {
    hide RowsFor, Unanimous, Principals, Wholes, Splits, AllHits;
    hide SplitHits, AmbiguousReason, HitBy, HitsFor, FirstSingle;
    NothingCompatible(norm, m, catalog);
    AmbiguousMeaning(norm, m, catalog);
    SplitMeaning(norm, m, catalog);
    if Unanimous(norm, m, catalog) {
      SingleMeaning(norm, m, catalog, Principals(norm, m));
      SingleMeaning(norm, m, catalog, Wholes(norm, m));
    }
  }

  lemma OnlyRow(norm: Norm, m: Metro, catalog: seq<DfsLocation>, city: string, row: DfsLocation)
    requires NoCityTwice(norm, m, catalog)
    requires city in CandidateCities(norm, m) && row in RowsFor(norm, m.states, catalog, city)
    ensures row == RowsFor(norm, m.states, catalog, city)[0]
  {
    hide RowsFor, CandidateCities;
  }

  /** An exact or strong verdict selects a catalog row that a principal city, respectively the
      whole name prefix, hits; and every row any candidate city hits has the selected code. */
  lemma VerdictIsUnique(norm: Norm, m: Metro, catalog: seq<DfsLocation>, city: string, row: DfsLocation)
    requires MatchMetro(norm, m, catalog).status in {Exact, Strong}
    ensures var r := MatchMetro(norm, m, catalog);
            && m.existing == [] && r.code.Some? && r.city.Some?
            && r.city.value in (if r.status == Exact then Principals(norm, m) else Wholes(norm, m))
            && (exists chosen :: chosen in RowsFor(norm, m.states, catalog, r.city.value)
                  && chosen.code == r.code.value && Some(chosen.name) == r.name)
            && (city in CandidateCities(norm, m) && row in RowsFor(norm, m.states, catalog, city) ==>
                  row.code == r.code.value)
  {
    hide RowsFor, Principals, Wholes, Splits, AllHits, SplitHits;
    hide AmbiguousReason, CompatibleExistingRows, HitBy, HitsFor, NoCityTwice, FirstSingle;
    assert Unanimous(norm, m, catalog) ==> NoCityTwice(norm, m, catalog);
    AmbiguousMeaning(norm, m, catalog);
    var cities := if MatchMetro(norm, m, catalog).status == Exact then Principals(norm, m) else Wholes(norm, m);
    SingleMeaning(norm, m, catalog, cities);
    HitsKeys(norm, m.states, catalog, cities);
    var chosen := MatchMetro(norm, m, catalog).city.value;
    assert HasRows(norm, m, catalog, chosen);
    assert RowsFor(norm, m.states, catalog, chosen)[0] in RowsFor(norm, m.states, catalog, chosen);
    if city in CandidateCities(norm, m) && row in RowsFor(norm, m.states, catalog, city) {
      assert HasRows(norm, m, catalog, city);
      OnlyRow(norm, m, catalog, city, row);
    }
  }

  // ----- Catalog order ---------------------------------------------------------------------

  lemma RowsPermute(norm: Norm, m: Metro, a: seq<DfsLocation>, b: seq<DfsLocation>, city: string)
    requires IsPermutation(a, b)
    ensures IsPermutation(RowsFor(norm, m.states, a, city), RowsFor(norm, m.states, b, city))
    ensures |RowsFor(norm, m.states, a, city)| == |RowsFor(norm, m.states, b, city)|
    ensures |RowsFor(norm, m.states, a, city)| <= 1 ==>
        RowsFor(norm, m.states, a, city) == RowsFor(norm, m.states, b, city)
  {
    FilterPermutation(IsHit(norm, m.states, city), a, b);
    var x, y := RowsFor(norm, m.states, a, city), RowsFor(norm, m.states, b, city);
    PermutationLength(x, y);
    if |x| == 1 {
      assert x[0] in y;
    }
  }

  lemma {:induction false} SameHits(norm: Norm, m: Metro, a: seq<DfsLocation>, b: seq<DfsLocation>, cities: seq<string>)
    requires forall k :: k in cities ==> RowsFor(norm, m.states, a, k) == RowsFor(norm, m.states, b, k)
    ensures HitsFor(norm, m.states, a, cities) == HitsFor(norm, m.states, b, cities)
  {
    hide RowsFor;
    if cities != [] {
      assert Last(cities) in cities;
      SameHits(norm, m, a, b, Front(cities));
    }
  }

  lemma SameOneCode(norm: Norm, m: Metro, a: seq<DfsLocation>, b: seq<DfsLocation>)
    requires forall k :: k in CandidateCities(norm, m) ==>
        RowsFor(norm, m.states, a, k) == RowsFor(norm, m.states, b, k)
    ensures OneCode(norm, m, a) <==> OneCode(norm, m, b)
  {
    hide RowsFor, CandidateCities;
    forall k ensures HasRows(norm, m, a, k) <==> HasRows(norm, m, b, k) {
    }
  }

  lemma SameReason(norm: Norm, m: Metro, a: seq<DfsLocation>, b: seq<DfsLocation>)
    requires IsPermutation(a, b)
    ensures AmbiguousReason(AllHits(norm, m, a)) == AmbiguousReason(AllHits(norm, m, b))
    ensures NoCityTwice(norm, m, a) ==> forall k :: k in CandidateCities(norm, m) ==>
              RowsFor(norm, m.states, a, k) == RowsFor(norm, m.states, b, k)
  {
    hide RowsFor, CandidateCities, IsPermutation, SeveralRows, SingleCodes, AllHits;
    SeveralMeaning(norm, m, a);
    SeveralMeaning(norm, m, b);
    forall k | k in CandidateCities(norm, m)
      ensures |RowsFor(norm, m.states, a, k)| == |RowsFor(norm, m.states, b, k)|
      ensures |RowsFor(norm, m.states, a, k)| <= 1 ==> RowsFor(norm, m.states, a, k) == RowsFor(norm, m.states, b, k)
    {
      RowsPermute(norm, m, a, b, k);
    }
    if NoCityTwice(norm, m, a) {
      CodesMeaning(norm, m, a);
      CodesMeaning(norm, m, b);
      SameOneCode(norm, m, a, b);
    }
  }

  lemma FreshOrderIrrelevant(norm: Norm, m: Metro, a: seq<DfsLocation>, b: seq<DfsLocation>)
    requires IsPermutation(a, b)
    ensures FreshMatch(norm, m, a) == FreshMatch(norm, m, b)
  {
    hide RowsFor, Principals, Wholes, Splits, AllHits, AmbiguousReason;
    hide HitsFor, FirstSingle, IsPermutation, NoCityTwice, OneCode;
    SameReason(norm, m, a, b);
    AmbiguousMeaning(norm, m, a);
    if Unanimous(norm, m, a) {
      SameHits(norm, m, a, b, Principals(norm, m));
      SameHits(norm, m, a, b, Wholes(norm, m));
      SameHits(norm, m, a, b, Splits(norm, m));
    }
  }

  /** The catalog's order never changes a verdict, and for a metro without location codes it
      changes nothing at all. */
  lemma CatalogOrderIrrelevant(norm: Norm, m: Metro, a: seq<DfsLocation>, b: seq<DfsLocation>)
    requires IsPermutation(a, b)
    ensures MatchMetro(norm, m, a).status == MatchMetro(norm, m, b).status
    ensures m.existing == [] ==> MatchMetro(norm, m, a) == MatchMetro(norm, m, b)
  {
    hide FreshMatch;
    FilterPermutation(IsCompatible(norm, m), a, b);
    PermutationLength(CompatibleExistingRows(norm, m, a), CompatibleExistingRows(norm, m, b));
    if m.existing == [] {
      NothingCompatible(norm, m, a);
      NothingCompatible(norm, m, b);
      FreshOrderIrrelevant(norm, m, a, b);
    }
  }

  // ----- When the order matters ------------------------------------------------------------

  /** The rows a metro's existing codes select are the same location: one code and one name. */
  ghost predicate ExistingRowsAgree(norm: Norm, m: Metro, catalog: seq<DfsLocation>) {
    forall x, y :: x in CompatibleExistingRows(norm, m, catalog) && y in CompatibleExistingRows(norm, m, catalog) ==>
      x.code == y.code && x.name == y.name
  }

  lemma MovedFirst(catalog: seq<DfsLocation>, row: DfsLocation) returns (reordered: seq<DfsLocation>)
    requires row in catalog
    ensures IsPermutation(catalog, reordered) && reordered != [] && reordered[0] == row
  {
    var i :| 0 <= i < |catalog| && catalog[i] == row;
    assert catalog == catalog[..i] + [row] + catalog[i + 1..];
    reordered := [row] + catalog[..i] + catalog[i + 1..];
  }

  /** A compatible row in front of the catalog is the one selected. */
  lemma FirstCompatibleSelected(norm: Norm, m: Metro, catalog: seq<DfsLocation>)
    requires catalog != [] && IsCompatible(norm, m)(catalog[0])
    ensures var r := MatchMetro(norm, m, catalog);
            r.code == Some(catalog[0].code) && r.name == Some(catalog[0].name)
  {
    hide FreshMatch, IsCompatible;
    var p := IsCompatible(norm, m);
    assert catalog == [catalog[0]] + catalog[1..];
    FilterConcat(p, [catalog[0]], catalog[1..]);
    FilterSnoc(p, [], catalog[0]);
    assert [] + [catalog[0]] == [catalog[0]];
  }

  lemma AgreeingOrderIrrelevant(norm: Norm, m: Metro, a: seq<DfsLocation>, b: seq<DfsLocation>)
    requires IsPermutation(a, b) && ExistingRowsAgree(norm, m, a)
    ensures MatchMetro(norm, m, a) == MatchMetro(norm, m, b)
  {
    hide FreshMatch, IsCompatible;
    FilterPermutation(IsCompatible(norm, m), a, b);
    PermutationLength(CompatibleExistingRows(norm, m, a), CompatibleExistingRows(norm, m, b));
    if CompatibleExistingRows(norm, m, a) != [] {
      var x, y := CompatibleExistingRows(norm, m, a)[0], CompatibleExistingRows(norm, m, b)[0];
      assert x in CompatibleExistingRows(norm, m, a);
      assert y in CompatibleExistingRows(norm, m, b);
    } else if m.existing == [] {
      FreshOrderIrrelevant(norm, m, a, b);
    }
  }

  /** Reordering the catalog cannot change a metro's match exactly when the rows its existing codes
      select agree on code and name. */
  lemma CatalogOrderIrrelevantIff(norm: Norm, m: Metro, catalog: seq<DfsLocation>)
    ensures ExistingRowsAgree(norm, m, catalog) <==>
      forall reordered :: IsPermutation(catalog, reordered) ==>
          MatchMetro(norm, m, reordered) == MatchMetro(norm, m, catalog)
  {
    hide MatchMetro, IsCompatible;
    if ExistingRowsAgree(norm, m, catalog) {
      forall reordered | IsPermutation(catalog, reordered)
        ensures MatchMetro(norm, m, reordered) == MatchMetro(norm, m, catalog)
      {
        AgreeingOrderIrrelevant(norm, m, catalog, reordered);
      }
    } else {
      var compatible := CompatibleExistingRows(norm, m, catalog);
      var x, y :| x in compatible && y in compatible && !(x.code == y.code && x.name == y.name);
      FilterMember(IsCompatible(norm, m), catalog, x);
      FilterMember(IsCompatible(norm, m), catalog, y);
      var withX := MovedFirst(catalog, x);
      var withY := MovedFirst(catalog, y);
      FirstCompatibleSelected(norm, m, withX);
      FirstCompatibleSelected(norm, m, withY);
    }
  }

  lemma BothKept<T>(p: T -> bool, x: T, y: T)
    requires p(x) && p(y)
    ensures Filter(p, [x, y]) == [x, y]
  {
    FilterSnoc(p, [], x);
    FilterSnoc(p, [x], y);
    assert [] + [x] == [x] && [x] + [y] == [x, y];
  }

  /** With existing codes the selected row does follow the catalog's order. */
  lemma ExistingCodesFollowOrder(norm: Norm)
    requires norm("a") != ""
    ensures var m := Metro("c", ["a"], [], [], {"TX"}, [1, 2]);
            var x, y := DfsLocation(1, "x", "a", "TX"), DfsLocation(2, "y", "a", "TX");
            MatchMetro(norm, m, [x, y]).code == Some(1) && MatchMetro(norm, m, [y, x]).code == Some(2)
  {
    var m := Metro("c", ["a"], [], [], {"TX"}, [1, 2]);
    var x, y := DfsLocation(1, "x", "a", "TX"), DfsLocation(2, "y", "a", "TX");
    assert Front(["a"]) == [] && Last(["a"]) == "a";
    assert Principals(norm, m) == ["a"] && Wholes(norm, m) == [];
    assert "a" in Principals(norm, m) + Wholes(norm, m);
    assert IsCompatible(norm, m)(x) && IsCompatible(norm, m)(y);
    BothKept(IsCompatible(norm, m), x, y);
    BothKept(IsCompatible(norm, m), y, x);
  }
}

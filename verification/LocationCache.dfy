/** The time-limited cache of location rows with its city index, refreshed under a lock that is
    checked twice, and used by any number of concurrent callers. */
module LocationCache {
  import opened Containers
  import opened LocationBridge

  const TTL: real := 3600.0

  /** loadedAt is 0.0 until the first load has ended. */
  predicate IsFresh(loadedAt: real, now: real) {
    loadedAt != 0.0 && now - loadedAt < TTL
  }

  function CityRows(ops: PlaceText, raw: seq<LocationRow>): seq<LocationRow> {
    if raw == [] then []
    else CityRows(ops, Front(raw)) + if ops.lower(Last(raw).locationType) == "city" then [Last(raw)] else []
  }

  /** How one locations() call ends. */
  datatype Answer = Rows(raw: seq<LocationRow>) | ErrorAnswer | Exception

  /** The fields of the bridge object. */
  datatype Fields = Fields(rows: seq<LocationRow>, index: Index, loadedAt: real)

  function Loaded(ops: PlaceText, f: Fields, a: Answer, now: real): Fields {
    match a
    case Rows(raw) => Fields(CityRows(ops, raw), BuildIndex(ops, CityRows(ops, raw)), now)
    case ErrorAnswer => f.(loadedAt := now)
    case Exception => f
  }

  function IsCityRow(ops: PlaceText): LocationRow -> bool {
    (row: LocationRow) => ops.lower(row.locationType) == "city"
  }

  lemma {:induction false} CityRowsFiltered(ops: PlaceText, raw: seq<LocationRow>)
    ensures CityRows(ops, raw) == Filter(IsCityRow(ops), raw)
  {
    if raw != [] {
      CityRowsFiltered(ops, Front(raw));
    }
  }

  /** What a load leaves in the fields: the city rows of the answer, in order, with their index and the
      time; after an error response only a new time; after an exception everything as it was. */
  ghost predicate LoadLeaves(ops: PlaceText, f: Fields, a: Answer, now: real, g: Fields) {
    match a
    case Rows(raw) =>
      && (exists positions :: PicksAll(IsCityRow(ops), raw, g.rows, positions))
      && (forall key :: key != "" ==> Candidates(g.index, key) == Filter(HasKey(ops, key), g.rows))
      && g.loadedAt == now
    case ErrorAnswer => g.rows == f.rows && g.index == f.index && g.loadedAt == now
    case Exception => g == f
  }

  lemma LoadedLeaves(ops: PlaceText, f: Fields, a: Answer, now: real)
    ensures LoadLeaves(ops, f, a, now, Loaded(ops, f, a, now))
  {
    hide BuildIndex, CityRows, PicksAll, Candidates, Filter;
    if a.Rows? {
      CityRowsFiltered(ops, a.raw);
      var positions := FilterPicksAll(IsCityRow(ops), a.raw);
      forall key | key != "" ensures Candidates(BuildIndex(ops, CityRows(ops, a.raw)), key)
                                  == Filter(HasKey(ops, key), CityRows(ops, a.raw))
      {
        IndexListsRows(ops, CityRows(ops, a.raw), key);
      }
    }
  }

  method SelectCityRows(ops: PlaceText, raw: seq<LocationRow>) returns (rows: seq<LocationRow>)
    ensures rows == CityRows(ops, raw)
  {
    rows := [];
    for i := 0 to |raw|
      invariant rows == CityRows(ops, raw[..i])
    {
      assert Front(raw[..i + 1]) == raw[..i];
      if ops.lower(raw[i].locationType) == "city" { rows := rows + [raw[i]]; }
    }
    assert raw[..|raw|] == raw;
  }

  method IndexRows(ops: PlaceText, rows: seq<LocationRow>) returns (index: Index)
    ensures index == BuildIndex(ops, rows)
  {
    index := map[];
    for i := 0 to |rows|
      invariant index == BuildIndex(ops, rows[..i])
    {
      assert Front(rows[..i + 1]) == rows[..i];
      var parts := Parts(ops, rows[i].name);
      if parts != [] {
        var key := ops.norm(parts[0]);
        if key != "" { index := index[key := Candidates(index, key) + [rows[i]]]; }
      }
    }
    assert rows[..|rows|] == rows;
  }

  class DataForSEOLocationBridge {
    var cachedRows: seq<LocationRow>
    var cityIndex: Index
    var cacheLoadedAt: real

    function View(): Fields
      reads this
    {
      Fields(cachedRows, cityIndex, cacheLoadedAt)
    }

    constructor ()
      ensures View() == Fields([], map[], 0.0)
    {
      cachedRows, cityIndex, cacheLoadedAt := [], map[], 0.0;
    }

    /** What follows the awaited locations() call, still under the lock. */
    method AfterLoad(ops: PlaceText, a: Answer, now: real)
      modifies this
      ensures View() == Loaded(ops, old(View()), a, now)
      ensures LoadLeaves(ops, old(View()), a, now, View())
    {
      LoadedLeaves(ops, View(), a, now);
      hide LoadLeaves;
      match a {
        case Exception =>
        case ErrorAnswer => cacheLoadedAt := now;
        case Rows(raw) =>
          var rows := SelectCityRows(ops, raw);
          var index := IndexRows(ops, rows);
          cachedRows, cityIndex, cacheLoadedAt := rows, index, now;
      }
    }

    method Resolve(ops: PlaceText, s: Suggestion) returns (r: Resolution)
      ensures r == ResolveIndexed(ops, s, cityIndex)
    {
      hide IndexedScore, OtherCountry;
      var city := ops.norm(s.city);
      if city == "" { return UNRESOLVED; }
      var candidates := Candidates(cityIndex, city);
      if candidates == [] { return UNRESOLVED; }
      var bestCode: Option<int>, bestScore := None, 0;
      for i := 0 to |candidates|
        invariant Best(bestCode, bestScore) == IndexedBest(ops, s, candidates[..i])
      {
        assert Front(candidates[..i + 1]) == candidates[..i];
        var row := candidates[i];
        if OtherCountry(ops, s, row) { continue; }
        if row.code.None? { continue; }
        var score := IndexedScore(ops, s, row);
        if score > bestScore { bestScore, bestCode := score, row.code; }
      }
      assert candidates[..|candidates|] == candidates;
      if bestCode.None? { return UNRESOLVED; }
      r := Resolution(bestCode, Some(High));
    }
  }

  // ----- Concurrent callers ----------------------------------------------------------------

  /** A caller of the cache: between calls, waiting for the lock, or awaiting a load it
      started under the lock. */
  datatype Caller = Idle | WantsLock | Loading(since: real)

  /** loads lists the times at which calls of locations() returned. */
  datatype System = System(
    fields: Fields, clock: real, lock: Option<nat>, callers: map<nat, Caller>, loads: seq<real>)

  /** A monotonic clock never reads zero once the process runs. */
  ghost predicate Init(s: System) {
    && s.fields == Fields([], map[], 0.0) && s.clock > 0.0 && s.lock == None && s.loads == []
    && (forall c :: c in s.callers ==> s.callers[c] == Idle)
  }

  ghost predicate Tick(s: System, s': System, now: real) {
    now >= s.clock && s' == s.(clock := now)
  }

  /** First check: a stale cache sends the caller to the lock, a fresh one is served at once. */
  ghost predicate Call(s: System, s': System, c: nat) {
    && c in s.callers && s.callers[c] == Idle
    && s' == if IsFresh(s.fields.loadedAt, s.clock) then s else s.(callers := s.callers[c := WantsLock])
  }

  /** Second check, under the lock: still stale means a load starts. */
  ghost predicate Acquire(s: System, s': System, c: nat) {
    && c in s.callers && s.callers[c] == WantsLock && s.lock == None
    && s' == if IsFresh(s.fields.loadedAt, s.clock) then s.(callers := s.callers[c := Idle])
             else s.(lock := Some(c), callers := s.callers[c := Loading(s.clock)])
  }

  ghost predicate Respond(ops: PlaceText, s: System, s': System, c: nat, a: Answer) {
    && c in s.callers && s.callers[c].Loading?
    && s' == s.(fields := Loaded(ops, s.fields, a, s.clock), lock := None, callers := s.callers[c := Idle],
                loads := if a == Exception then s.loads else s.loads + [s.clock])
  }

  ghost predicate Next(ops: PlaceText, s: System, s': System) {
    || (exists now :: Tick(s, s', now))
    || (exists c :: Call(s, s', c))
    || (exists c :: Acquire(s, s', c))
    || (exists c, a :: Respond(ops, s, s', c, a))
  }

  ghost predicate Behaviour(ops: PlaceText, trace: seq<System>) {
    && trace != [] && Init(trace[0])
    && (forall i, j :: 0 <= i && j == i + 1 < |trace| ==> Next(ops, trace[i], trace[j]))
  }

  /** No earlier load has returned, or the last one is at least a TTL before now. */
  ghost predicate Overdue(loads: seq<real>, now: real) {
    loads == [] || now >= Last(loads) + TTL
  }

  ghost predicate Spaced(loads: seq<real>) {
    forall i, j :: 0 <= i && j == i + 1 < |loads| ==> loads[j] >= loads[i] + TTL
  }

  ghost predicate Inv(ops: PlaceText, s: System) {
    && s.clock > 0.0
    && s.fields.index == BuildIndex(ops, s.fields.rows)
    && s.fields.loadedAt == (if s.loads == [] then 0.0 else Last(s.loads))
    && (s.loads != [] ==> 0.0 < Last(s.loads) <= s.clock)
    && Spaced(s.loads)
    && (s.lock.Some? ==> s.lock.value in s.callers && s.callers[s.lock.value].Loading?)
    && (forall c :: c in s.callers && s.callers[c].Loading? ==>
          s.lock == Some(c) && s.callers[c].since <= s.clock && Overdue(s.loads, s.callers[c].since))
  }

  lemma SpacedSnoc(loads: seq<real>, now: real)
    requires Spaced(loads) && Overdue(loads, now)
    ensures Spaced(loads + [now])
  {
  }

  lemma NextInv(ops: PlaceText, s: System, s': System)
    requires Inv(ops, s) && Next(ops, s, s')
    ensures Inv(ops, s')
  {
    hide BuildIndex, CityRows;
    if now :| Tick(s, s', now) {
    } else if c :| Call(s, s', c) {
    } else if c :| Acquire(s, s', c) {
    } else if c, a :| Respond(ops, s, s', c, a) {
      if a != Exception {
        SpacedSnoc(s.loads, s.clock);
      }
    }
  }

  lemma {:induction false} BehaviourInv(ops: PlaceText, trace: seq<System>)
    requires Behaviour(ops, trace)
    ensures Inv(ops, Last(trace))
    decreases |trace|
  {
    hide Next;
    if |trace| > 1 {
      BehaviourInv(ops, Front(trace));
      NextInv(ops, trace[|trace| - 2], trace[|trace| - 1]);
    }
  }

  // ----- Main results ----------------------------------------------------------------------

  /** A cache is stale exactly when no load has returned or the last one returned an hour ago or more; a
      call then goes to the lock, and under the lock starts a load; otherwise it is served at once. */
  lemma ReloadsExactlyWhenOverdue(ops: PlaceText, trace: seq<System>, s': System, c: nat)
    requires Behaviour(ops, trace) && c in Last(trace).callers
    ensures var s := Last(trace);
            var overdue := s.loads == [] || s.clock - Last(s.loads) >= 3600.0;
            && (Call(s, s', c) ==> c in s'.callers && s'.callers[c] == if overdue then WantsLock else Idle)
            && (Acquire(s, s', c) ==>
                  c in s'.callers && s'.callers[c] == (if overdue then Loading(s.clock) else Idle)
                  && (overdue <==> s'.lock == Some(c)))
  {
    hide BuildIndex;
    BehaviourInv(ops, trace);
  }

  /** At every point a caller can observe, a lookup gives the first cached row whose primary name is the
      city and whose state occurs in the full name, else the first whose primary name is the city. */
  lemma LookupsAnswer(ops: PlaceText, trace: seq<System>, s: Suggestion)
    requires Behaviour(ops, trace) && CommaIsText(ops)
    ensures var f := Last(trace).fields; IsIndexedAnswer(ops, s, f.rows, ResolveIndexed(ops, s, f.index))
  {
    hide BuildIndex, ResolveIndexed, IsIndexedAnswer;
    BehaviourInv(ops, trace);
    IndexedIsAnswer(ops, s, Last(trace).fields.rows);
  }

  /** Nobody is stuck: an idle caller can call, a caller that wants the lock gets it unless another caller
      is loading, and a load can end with any answer, which frees the lock. */
  lemma NobodyIsStuck(ops: PlaceText, trace: seq<System>, c: nat, a: Answer)
    requires Behaviour(ops, trace) && c in Last(trace).callers
    ensures var s := Last(trace);
            match s.callers[c]
            case Idle => exists s' :: Call(s, s', c)
            case WantsLock =>
              || (exists s' :: Acquire(s, s', c))
              || (s.lock.Some? && s.lock.value in s.callers && s.callers[s.lock.value].Loading?)
            case Loading(_) => exists s' :: Respond(ops, s, s', c, a) && s'.lock == None && s'.callers[c] == Idle
  {
    hide BuildIndex, Loaded;
    BehaviourInv(ops, trace);
    var s := Last(trace);
    var recent := IsFresh(s.fields.loadedAt, s.clock);
    match s.callers[c] {
      case Idle =>
        assert Call(s, if recent then s else s.(callers := s.callers[c := WantsLock]), c);
      case WantsLock =>
        if s.lock == None {
          assert Acquire(s, if recent then s.(callers := s.callers[c := Idle])
                            else s.(lock := Some(c), callers := s.callers[c := Loading(s.clock)]), c);
        }
      case Loading(_) =>
        var s' := s.(fields := Loaded(ops, s.fields, a, s.clock), lock := None, callers := s.callers[c := Idle],
                     loads := if a == Exception then s.loads else s.loads + [s.clock]);
        assert Respond(ops, s, s', c, a);
    }
  }

  /** At most one load is in flight, and whatever is in flight was started with no load
      returned before it or a TTL after the last one. */
  lemma OneLoadAtATime(ops: PlaceText, trace: seq<System>, c: nat, d: nat)
    requires Behaviour(ops, trace)
    requires c in Last(trace).callers && d in Last(trace).callers
    requires Last(trace).callers[c].Loading? && Last(trace).callers[d].Loading?
    ensures c == d
    ensures Overdue(Last(trace).loads, Last(trace).callers[c].since)
  {
    BehaviourInv(ops, trace);
  }

  /** The city index is the index of the cached rows at every point a caller can observe, so a
      lookup in it finds exactly the highly confident results of a scan over those rows. */
  lemma IndexInSync(ops: PlaceText, trace: seq<System>, s: Suggestion)
    requires Behaviour(ops, trace) && CommaIsText(ops)
    ensures var f := Last(trace).fields;
            && f.index == BuildIndex(ops, f.rows)
            && (ResolveIndexed(ops, s, f.index).code.Some? <==> Resolve(ops, s, f.rows).confidence == Some(High))
            && (ResolveIndexed(ops, s, f.index).code.Some? ==>
                ResolveIndexed(ops, s, f.index) == Resolve(ops, s, f.rows))
  {
    hide Resolve, ResolveIndexed, BuildIndex;
    BehaviourInv(ops, trace);
    IndexAgreesWithScan(ops, s, Last(trace).fields.rows);
  }

  lemma {:induction false} SpacedSpan(loads: seq<real>, i: nat, j: nat)
    requires Spaced(loads) && i <= j < |loads|
    ensures loads[j] >= loads[i] + TTL * (j - i) as real
    decreases j
  {
    if i < j {
      SpacedSpan(loads, i, j - 1);
      var k := j - 1;
      assert loads[j] >= loads[k] + TTL;
    }
  }

  /** However many callers there are, n + 1 loads take at least n TTLs to return. */
  lemma LoadsAreRateLimited(ops: PlaceText, trace: seq<System>, i: nat, j: nat)
    requires Behaviour(ops, trace) && i <= j < |Last(trace).loads|
    ensures Last(trace).loads[j] - Last(trace).loads[i] >= TTL * (j - i) as real
  {
    BehaviourInv(ops, trace);
    SpacedSpan(Last(trace).loads, i, j);
  }
}

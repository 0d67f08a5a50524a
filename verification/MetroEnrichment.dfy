/** Writing matched location codes back to the metros table, and what running the matching
    again on the written table gives. */
module MetroEnrichment {
  import opened Containers
  import opened MetroMatching

  // ----- Codes -----------------------------------------------------------------------------

  function DedupedCodes(values: seq<int>): seq<int> {
    if values == [] then []
    else
      var kept := DedupedCodes(Front(values));
      if Last(values) in kept then kept else kept + [Last(values)]
  }

  /** The code at i did not occur before. */
  ghost predicate FirstCode(values: seq<int>, i: int) {
    0 <= i < |values| && values[i] !in values[..i]
  }

  /** kept lists the codes at the given positions, which are in order and are exactly the firsts. */
  ghost predicate KeepsFirstCodes(values: seq<int>, kept: seq<int>, positions: seq<int>) {
    && |positions| == |kept|
    && (forall a, b :: 0 <= a < b < |positions| ==> positions[a] < positions[b])
    && (forall a :: 0 <= a < |positions| ==> FirstCode(values, positions[a]) && kept[a] == values[positions[a]])
    && (forall i :: FirstCode(values, i) ==> i in positions)
  }

  lemma FirstCodeInFront(front: seq<int>, last: int, i: int)
    ensures FirstCode(front + [last], i) <==> FirstCode(front, i) || (i == |front| && last !in front)
  {
    if 0 <= i <= |front| {
      assert (front + [last])[..i] == front[..i];
      assert front[..|front|] == front;
    }
  }

  lemma KeepsCodesStep(front: seq<int>, last: int, kept: seq<int>, positions: seq<int>)
    requires KeepsFirstCodes(front, kept, positions)
    ensures if last in front then KeepsFirstCodes(front + [last], kept, positions)
            else KeepsFirstCodes(front + [last], kept + [last], positions + [|front|])
  {
    var values := front + [last];
    forall i ensures FirstCode(values, i) <==> FirstCode(front, i) || (i == |front| && last !in front) {
      FirstCodeInFront(front, last, i);
    }
    forall i ensures FirstCode(front, i) ==> 0 <= i < |front| && values[i] == front[i] { }
    hide FirstCode;
    assert forall i :: i in positions + [|front|] <==> i in positions || i == |front|;
  }

  lemma {:induction false} DedupedCodesSame(values: seq<int>)
    ensures Distinct(DedupedCodes(values)) && forall c :: c in DedupedCodes(values) <==> c in values
  {
    if values != [] {
      DedupedCodesSame(Front(values));
      assert values == Front(values) + [Last(values)];
    }
  }

  /** What is kept: the first occurrence of every code, in order; so no code is lost or repeated. */
  lemma {:induction false} DedupedCodesMeaning(values: seq<int>) returns (positions: seq<int>)
    ensures var kept := DedupedCodes(values);
            Distinct(kept) && (forall c :: c in kept <==> c in values) && KeepsFirstCodes(values, kept, positions)
  {
    DedupedCodesSame(values);
    positions := [];
    if values != [] {
      hide KeepsFirstCodes, Distinct;
      var front, last := Front(values), Last(values);
      assert values == front + [last];
      positions := DedupedCodesMeaning(front);
      KeepsCodesStep(front, last, DedupedCodes(front), positions);
      if last !in front {
        positions := positions + [|front|];
      }
    }
  }

  /** Keeps the first occurrence of every code, in order. */
  method DedupeCodes(values: seq<int>) returns (result: seq<int>)
    ensures result == DedupedCodes(values)
    ensures Distinct(result) && (forall c :: c in result <==> c in values)
    ensures exists positions :: KeepsFirstCodes(values, result, positions)
  {
    result := [];
    var seen: set<int> := {};
    for i := 0 to |values|
      invariant result == DedupedCodes(values[..i])
      invariant forall c :: c in seen <==> c in result
    {
      assert Front(values[..i + 1]) == values[..i] && Last(values[..i + 1]) == values[i];
      if values[i] in seen { continue; }
      seen := seen + {values[i]};
      result := result + [values[i]];
    }
    assert values[..|values|] == values;
    var _ := DedupedCodesMeaning(values);
  }

  /** The code list written for a selected match: the selected code first. */
  function WrittenCodes(r: Match): seq<int>
    requires r.code.Some?
  {
    DedupedCodes([r.code.value] + r.existing)
  }

  /** The codes written are the selected one, first, and then every other existing one once. */
  lemma WrittenCodesMeaning(r: Match)
    requires r.code.Some?
    ensures var codes := WrittenCodes(r);
            && codes != [] && codes[0] == r.code.value && Distinct(codes)
            && (forall c :: c in codes <==> c == r.code.value || c in r.existing)
            && exists positions :: KeepsFirstCodes([r.code.value] + r.existing, codes, positions)
  {
    hide DedupedCodes;
    var all := [r.code.value] + r.existing;
    var positions := DedupedCodesMeaning(all);
    assert all[..0] == [] && FirstCode(all, 0);
    assert 0 in positions;
    assert positions[0] == 0;
  }

  // ----- Candidates ------------------------------------------------------------------------

  datatype Selection = Selection(includeStrong: bool, approved: set<(string, int)>)

  predicate Selectable(sel: Selection, r: Match) {
    || r.status == Exact
    || (sel.includeStrong && r.status == Strong && r.code.Some? && (r.cbsaCode, r.code.value) in sel.approved)
  }

  function AllCandidates(sel: Selection, matches: seq<Match>): seq<Match> {
    if matches == [] then []
    else AllCandidates(sel, Front(matches)) + if Selectable(sel, Last(matches)) then [Last(matches)] else []
  }

  function Limited<T>(xs: seq<T>, limit: Option<nat>): seq<T> {
    match limit
    case None => xs
    case Some(n) => xs[..Min(n, |xs|)]
  }

  /** Exact matches are candidates, and so are strong ones if they are included and their metro is
      approved with the very code that was selected. */
  function MayBeWritten(sel: Selection): Match -> bool {
    (r: Match) =>
      match r.status
      case Exact => true
      case Strong => sel.includeStrong && r.code != None && (r.cbsaCode, r.code.value) in sel.approved
      case _ => false
  }

  /** candidates are the first of the matches that may be written, as many as the limit allows. */
  ghost predicate FirstCandidates(sel: Selection, matches: seq<Match>, limit: Option<nat>, candidates: seq<Match>) {
    exists all, positions ::
      && PicksAll(MayBeWritten(sel), matches, all, positions) && candidates <= all
      && |candidates| == if limit.Some? && limit.value < |all| then limit.value else |all|
  }

  lemma {:induction false} CandidatesFiltered(sel: Selection, matches: seq<Match>)
    ensures AllCandidates(sel, matches) == Filter(MayBeWritten(sel), matches)
  {
    if matches != [] {
      CandidatesFiltered(sel, Front(matches));
    }
  }

  lemma CandidatesAreFirst(sel: Selection, matches: seq<Match>, limit: Option<nat>)
    ensures FirstCandidates(sel, matches, limit, Limited(AllCandidates(sel, matches), limit))
  {
    hide PicksAll, Filter, AllCandidates, MayBeWritten;
    CandidatesFiltered(sel, matches);
    var positions := FilterPicksAll(MayBeWritten(sel), matches);
  }

  method SelectCandidates(sel: Selection, matches: seq<Match>, limit: Option<nat>) returns (candidates: seq<Match>)
    ensures candidates == Limited(AllCandidates(sel, matches), limit)
    ensures FirstCandidates(sel, matches, limit, candidates)
  {
    hide FirstCandidates;
    CandidatesAreFirst(sel, matches, limit);
    candidates := [];
    for i := 0 to |matches|
      invariant candidates == AllCandidates(sel, matches[..i])
    {
      assert Front(matches[..i + 1]) == matches[..i];
      var r := matches[i];
      if r.status == Exact {
        candidates := candidates + [r];
      } else if sel.includeStrong && r.status == Strong && r.code.Some? && (r.cbsaCode, r.code.value) in sel.approved {
        candidates := candidates + [r];
      }
    }
    assert matches[..|matches|] == matches;
    candidates := Limited(candidates, limit);
  }

  // ----- The table -------------------------------------------------------------------------

  ghost predicate DistinctCbsa(rows: seq<Metro>) {
    forall i, j :: 0 <= i < j < |rows| ==> rows[i].cbsaCode != rows[j].cbsaCode
  }

  /** update(...).eq("cbsa_code", ...): every row with the code is rewritten. */
  function UpdateWhere(rows: seq<Metro>, cbsaCode: string, codes: seq<int>): seq<Metro> {
    seq(|rows|, i requires 0 <= i < |rows| =>
      if rows[i].cbsaCode == cbsaCode then rows[i].(existing := codes) else rows[i])
  }

  function Applied(rows: seq<Metro>, candidates: seq<Match>): seq<Metro>
    requires forall r :: r in candidates ==> r.code.Some?
  {
    if candidates == [] then rows
    else
      assert Last(candidates) in candidates;
      UpdateWhere(Applied(rows, Front(candidates)), Last(candidates).cbsaCode, WrittenCodes(Last(candidates)))
  }

  function HasCbsa(cbsaCode: string): Metro -> bool {
    (m: Metro) => m.cbsaCode == cbsaCode
  }

  class MetroTable {
    var rows: seq<Metro>

    constructor (rows: seq<Metro>)
      ensures this.rows == rows
    {
      this.rows := rows;
    }

    /** Rewrites the codes of every row with the code, and says how many there were. */
    method UpdateCodes(cbsaCode: string, codes: seq<int>) returns (count: nat)
      modifies this
      ensures rows == UpdateWhere(old(rows), cbsaCode, codes)
      ensures count == |Filter(HasCbsa(cbsaCode), old(rows))|
    {
      var updated: seq<Metro> := [];
      count := 0;
      for i := 0 to |rows|
        invariant rows == old(rows)
        invariant updated == UpdateWhere(rows, cbsaCode, codes)[..i]
        invariant count == |Filter(HasCbsa(cbsaCode), rows[..i])|
      {
        assert rows[..i + 1] == rows[..i] + [rows[i]];
        FilterSnoc(HasCbsa(cbsaCode), rows[..i], rows[i]);
        if rows[i].cbsaCode == cbsaCode {
          updated, count := updated + [rows[i].(existing := codes)], count + 1;
        } else {
          updated := updated + [rows[i]];
        }
      }
      assert rows[..|rows|] == rows;
      rows := updated;
    }
  }

  /** Exactly one row of the table has the code. */
  predicate SingleRow(rows: seq<Metro>, cbsaCode: string) {
    |Filter(HasCbsa(cbsaCode), rows)| == 1
  }

  lemma {:induction false} SameCbsaCount(rows: seq<Metro>, others: seq<Metro>, cbsaCode: string)
    requires |rows| == |others| && forall i :: 0 <= i < |rows| ==> rows[i].cbsaCode == others[i].cbsaCode
    ensures SingleRow(rows, cbsaCode) <==> SingleRow(others, cbsaCode)
    ensures |Filter(HasCbsa(cbsaCode), rows)| == |Filter(HasCbsa(cbsaCode), others)|
  {
    if rows != [] {
      SameCbsaCount(Front(rows), Front(others), cbsaCode);
    }
  }

  lemma {:induction false} AppliedKeepsCbsa(rows: seq<Metro>, candidates: seq<Match>, cbsaCode: string)
    requires forall r :: r in candidates ==> r.code.Some?
    ensures SingleRow(Applied(rows, candidates), cbsaCode) <==> SingleRow(rows, cbsaCode)
  {
    hide WrittenCodes, SingleRow;
    if candidates != [] {
      assert candidates == Front(candidates) + [Last(candidates)];
      AppliedKeepsCbsa(rows, Front(candidates), cbsaCode);
      SameCbsaCount(Applied(rows, Front(candidates)), Applied(rows, candidates), cbsaCode);
    }
  }

  /** The candidate has a code to write, and exactly one row to write it to. */
  predicate Writable(rows: seq<Metro>, r: Match) {
    r.code.Some? && SingleRow(rows, r.cbsaCode)
  }

  /** Candidate n is the first that is not writable, and after is before with the candidates up to it
      written: including it when it has a code, since its rows are counted only after the update. */
  ghost predicate FailsAt(before: seq<Metro>, candidates: seq<Match>, n: int, after: seq<Metro>) {
    && 0 <= n < |candidates|
    && (forall i :: 0 <= i < n ==> Writable(before, candidates[i]))
    && !Writable(before, candidates[n])
    && after == Applied(before, if candidates[n].code.Some? then candidates[..n + 1] else candidates[..n])
  }

  lemma CodesOf(r: Match)
    requires r.code.Some?
    ensures WrittenCodes(r) == DedupedCodes([r.code.value] + r.existing)
  {
  }

  lemma SingleRowCount(rows: seq<Metro>, cbsaCode: string)
    ensures SingleRow(rows, cbsaCode) <==> |Filter(HasCbsa(cbsaCode), rows)| == 1
  {
  }

  /** The apply loop: every candidate is written, up to the first one that is not writable, at which
      the run fails. */
  method ApplyCandidates(table: MetroTable, candidates: seq<Match>) returns (r: Result<seq<Match>>)
    modifies table
    ensures r.Ok? <==> forall i :: 0 <= i < |candidates| ==> Writable(old(table.rows), candidates[i])
    ensures r.Ok? ==> r.value == candidates && table.rows == Applied(old(table.rows), candidates)
    ensures r.Raised? ==> exists n :: FailsAt(old(table.rows), candidates, n, table.rows)
  {
    hide UpdateWhere, WrittenCodes, SingleRow;
    for i := 0 to |candidates|
      invariant forall j :: 0 <= j < i ==> Writable(old(table.rows), candidates[j])
      invariant table.rows == Applied(old(table.rows), candidates[..i])
    {
      if candidates[i].code.None? {
        assert FailsAt(old(table.rows), candidates, i, table.rows);
        return Raised("Cannot update " + candidates[i].cbsaCode + ": missing selected code");
      }
      assert Front(candidates[..i + 1]) == candidates[..i] && Last(candidates[..i + 1]) == candidates[i];
      AppliedKeepsCbsa(old(table.rows), candidates[..i], candidates[i].cbsaCode);
      var codes := DedupeCodes([candidates[i].code.value] + candidates[i].existing);
      assert codes == WrittenCodes(candidates[i]) by { CodesOf(candidates[i]); }
      ghost var before := table.rows;
      var count := table.UpdateCodes(candidates[i].cbsaCode, codes);
      SingleRowCount(before, candidates[i].cbsaCode);
      if count != 1 {
        assert FailsAt(old(table.rows), candidates, i, table.rows);
        return Raised("expected exactly one metros row for cbsa_code=" + candidates[i].cbsaCode);
      }
    }
    assert candidates[..|candidates|] == candidates;
    r := Ok(candidates);
  }

  function MatchAll(norm: Norm, rows: seq<Metro>, catalog: seq<DfsLocation>): seq<Match> {
    seq(|rows|, i requires 0 <= i < |rows| => MatchMetro(norm, rows[i], catalog))
  }

  lemma MatchKeepsIdentity(norm: Norm, m: Metro, catalog: seq<DfsLocation>)
    ensures MatchMetro(norm, m, catalog).cbsaCode == m.cbsaCode
    ensures MatchMetro(norm, m, catalog).existing == m.existing
  {
    hide AmbiguousReason, AllHits, HitsFor, FirstSingle, CompatibleExistingRows;
  }

  lemma {:induction false} CandidateRow(
      norm: Norm, rows: seq<Metro>, catalog: seq<DfsLocation>, sel: Selection, r: Match)
    returns (i: nat)
    requires r in AllCandidates(sel, MatchAll(norm, rows, catalog))
    ensures i < |rows| && rows[i].cbsaCode == r.cbsaCode
  {
    hide MatchMetro, Selectable;
    var matches := MatchAll(norm, rows, catalog);
    assert Front(matches) == MatchAll(norm, Front(rows), catalog);
    if r in AllCandidates(sel, Front(matches)) {
      i := CandidateRow(norm, Front(rows), catalog, sel, r);
    } else {
      i := |rows| - 1;
      MatchKeepsIdentity(norm, rows[i], catalog);
    }
  }

  lemma {:induction false} DistinctIsSingle(rows: seq<Metro>, i: nat)
    requires DistinctCbsa(rows) && i < |rows|
    ensures SingleRow(rows, rows[i].cbsaCode)
  {
    var p := HasCbsa(rows[i].cbsaCode);
    FilterAround(p, rows, i);
    FilterNone(p, rows[..i]);
    FilterNone(p, rows[i + 1..]);
  }

  /** On a table where codes identify rows, applying the candidates matched from it never fails. */
  lemma MatchedRowsAreSingle(norm: Norm, rows: seq<Metro>, catalog: seq<DfsLocation>, sel: Selection, r: Match)
    requires DistinctCbsa(rows) && r in AllCandidates(sel, MatchAll(norm, rows, catalog))
    ensures SingleRow(rows, r.cbsaCode)
  {
    hide MatchMetro;
    var i := CandidateRow(norm, rows, catalog, sel, r);
    DistinctIsSingle(rows, i);
  }

  // ----- One metro: writing a match makes it ready -----------------------------------------

  lemma OnlyCode(r: Match)
    requires r.code.Some? && r.existing == []
    ensures WrittenCodes(r) == [r.code.value]
  {
    var codes := [r.code.value];
    assert codes + r.existing == codes && Front(codes) == [] && Last(codes) == r.code.value;
    assert DedupedCodes([]) == [];
  }

  lemma RowIsHit(norm: Norm, m: Metro, catalog: seq<DfsLocation>, city: string, row: DfsLocation)
    requires row in RowsFor(norm, m.states, catalog, city)
    ensures row in catalog && norm(row.city) == norm(city) && row.state in m.states
  {
    FilterMember(IsHit(norm, m.states, city), catalog, row);
  }

  lemma RowStaysCompatible(norm: Norm, m: Metro, m': Metro, catalog: seq<DfsLocation>, city: string, row: DfsLocation)
    requires row in RowsFor(norm, m.states, catalog, city)
    requires city in Principals(norm, m) || city in Wholes(norm, m)
    requires m' == m.(existing := [row.code])
    ensures row in CompatibleExistingRows(norm, m', catalog)
  {
    hide DedupePreserveOrder;
    RowIsHit(norm, m, catalog, city, row);
    assert city in Principals(norm, m') + Wholes(norm, m');
    assert IsCompatible(norm, m')(row);
    FilterMember(IsCompatible(norm, m'), catalog, row);
  }

  /** A metro with one location code that some compatible row carries is ready with that code. */
  lemma CompatibleIsReady(norm: Norm, m: Metro, catalog: seq<DfsLocation>, row: DfsLocation)
    requires row in CompatibleExistingRows(norm, m, catalog) && m.existing == [row.code]
    ensures MatchMetro(norm, m, catalog).status == AlreadyReady
    ensures MatchMetro(norm, m, catalog).code == Some(row.code)
  {
    hide FreshMatch, Norms;
    var compatible := CompatibleExistingRows(norm, m, catalog);
    FilterMember(IsCompatible(norm, m), catalog, compatible[0]);
  }

  /** After its codes are written, a metro with an exact or strong verdict re-matches as
      already ready with the same code, on the same catalog. */
  lemma MatchIsFixpoint(norm: Norm, m: Metro, catalog: seq<DfsLocation>)
    requires MatchMetro(norm, m, catalog).status in {Exact, Strong}
    ensures var r := MatchMetro(norm, m, catalog);
            && r.code.Some?
            && (var again := MatchMetro(norm, m.(existing := WrittenCodes(r)), catalog);
                again.status == AlreadyReady && again.code == r.code && again.cbsaCode == r.cbsaCode)
  {
    hide MatchMetro, RowsFor, DedupePreserveOrder, CompatibleExistingRows;
    var r := MatchMetro(norm, m, catalog);
    VerdictIsUnique(norm, m, catalog, "", DfsLocation(0, "", "", ""));
    MatchKeepsIdentity(norm, m, catalog);
    OnlyCode(r);
    var chosen :| chosen in RowsFor(norm, m.states, catalog, r.city.value) && chosen.code == r.code.value;
    var m' := m.(existing := WrittenCodes(r));
    MatchKeepsIdentity(norm, m', catalog);
    RowStaysCompatible(norm, m, m', catalog, r.city.value, chosen);
    CompatibleIsReady(norm, m', catalog, chosen);
  }

  // ----- The whole table -------------------------------------------------------------------

  /** How many candidates precede position i. */
  function Rank(sel: Selection, matches: seq<Match>, i: nat): nat
    requires i <= |matches|
  {
    |AllCandidates(sel, matches[..i])|
  }

  lemma {:induction false} CandidatesSelectable(
      sel: Selection, norm: Norm, rows: seq<Metro>, catalog: seq<DfsLocation>, r: Match)
    requires r in AllCandidates(sel, MatchAll(norm, rows, catalog))
    ensures r.code.Some? && Selectable(sel, r)
  {
    hide MatchMetro;
    var matches := MatchAll(norm, rows, catalog);
    assert Front(matches) == MatchAll(norm, Front(rows), catalog);
    if r in AllCandidates(sel, Front(matches)) {
      CandidatesSelectable(sel, norm, Front(rows), catalog, r);
    } else {
      if r.status == Exact {
        VerdictIsUnique(norm, Last(rows), catalog, "", DfsLocation(0, "", "", ""));
      }
    }
  }

  /** Position i is among the first n candidates. */
  ghost predicate Chosen(sel: Selection, matches: seq<Match>, i: nat, n: nat)
    requires i < |matches|
  {
    Selectable(sel, matches[i]) && Rank(sel, matches, i) < n
  }

  lemma {:induction false} CandidatesGrow(sel: Selection, matches: seq<Match>, i: nat)
    requires i < |matches|
    ensures Rank(sel, matches, i + 1) == Rank(sel, matches, i) + if Selectable(sel, matches[i]) then 1 else 0
    ensures AllCandidates(sel, matches[..i + 1])
         == AllCandidates(sel, matches[..i]) + if Selectable(sel, matches[i]) then [matches[i]] else []
  {
    hide Selectable;
    assert Front(matches[..i + 1]) == matches[..i];
  }

  lemma LimitedSnoc(before: seq<Match>, r: Match, n: nat, x: Match)
    ensures x in Limited(before + [r], Some(n)) <==> x in Limited(before, Some(n)) || (x == r && |before| < n)
  {
    if |before| < n {
      assert Limited(before, Some(n)) == before && Limited(before + [r], Some(n)) == before + [r];
    } else {
      assert Limited(before + [r], Some(n)) == Limited(before, Some(n));
    }
  }

  lemma LimitedNothing(n: nat)
    ensures Limited<Match>([], Some(n)) == []
  {
  }

  /** The first n candidates are those of the chosen positions. */
  lemma {:induction false} ChosenMeaning(sel: Selection, matches: seq<Match>, k: nat, n: nat, r: Match)
    requires k <= |matches|
    ensures r in Limited(AllCandidates(sel, matches[..k]), Some(n))
            <==> exists i :: 0 <= i < k && matches[i] == r && Chosen(sel, matches, i, n)
    decreases k
  {
    hide Selectable, Limited;
    if k == 0 {
      assert Limited(AllCandidates(sel, matches[..0]), Some(n)) == [] by { LimitedNothing(n); }
    } else {
      ChosenMeaning(sel, matches, k - 1, n, r);
      CandidatesGrow(sel, matches, k - 1);
      var before, last := AllCandidates(sel, matches[..k - 1]), matches[k - 1];
      LimitedSnoc(before, last, n, r);
      assert Chosen(sel, matches, k - 1, n) <==> Selectable(sel, last) && |before| < n;
      if Selectable(sel, last) {
        assert r in Limited(AllCandidates(sel, matches[..k]), Some(n)) <==>
               r in Limited(before, Some(n)) || (r == last && Chosen(sel, matches, k - 1, n));
      } else {
        assert AllCandidates(sel, matches[..k]) == before;
      }
    }
  }

  // ----- Applying and matching again -------------------------------------------------------

  lemma {:induction false} AppliedRow(rows: seq<Metro>, candidates: seq<Match>, i: nat)
    requires forall r :: r in candidates ==> r.code.Some?
    requires forall r, q :: r in candidates && q in candidates && r.cbsaCode == q.cbsaCode ==> r == q
    requires i < |rows|
    ensures |Applied(rows, candidates)| == |rows|
    ensures Applied(rows, candidates)[i].cbsaCode == rows[i].cbsaCode
    ensures forall r :: r in candidates && r.cbsaCode == rows[i].cbsaCode ==>
              Applied(rows, candidates)[i] == rows[i].(existing := WrittenCodes(r))
    ensures (forall r :: r in candidates ==> r.cbsaCode != rows[i].cbsaCode) ==> Applied(rows, candidates)[i] == rows[i]
  {
    hide WrittenCodes;
    if candidates != [] {
      assert candidates == Front(candidates) + [Last(candidates)];
      AppliedRow(rows, Front(candidates), i);
    }
  }

  lemma AfterFirst(before: seq<Match>, r: Match, n: nat)
    ensures (before + [r])[Min(n, |before| + 1)..] == before[Min(n, |before|)..] + if |before| < n then [] else [r]
  {
  }

  /** Chosen positions become unselectable and the others keep their match: what is left to
      select is what came after the first n candidates. */
  lemma {:induction false} RemainingCandidates(sel: Selection, matches: seq<Match>, again: seq<Match>, n: nat, k: nat)
    requires |again| == |matches| && k <= |matches|
    requires forall i :: 0 <= i < |matches| ==>
               if Chosen(sel, matches, i, n) then !Selectable(sel, again[i]) else again[i] == matches[i]
    ensures var all := AllCandidates(sel, matches[..k]);
            AllCandidates(sel, again[..k]) == all[Min(n, |all|)..]
    decreases k
  {
    hide Selectable;
    if k > 0 {
      RemainingCandidates(sel, matches, again, n, k - 1);
      CandidatesGrow(sel, matches, k - 1);
      CandidatesGrow(sel, again, k - 1);
      var before := AllCandidates(sel, matches[..k - 1]);
      assert Chosen(sel, matches, k - 1, n) || again[k - 1] == matches[k - 1];
      hide AllCandidates;
      AfterFirst(before, matches[k - 1], n);
    }
  }

  lemma ChosenIsMatched(sel: Selection, matches: seq<Match>, i: nat, n: nat)
    requires i < |matches| && Chosen(sel, matches, i, n)
    ensures matches[i].status in {Exact, Strong}
  {
  }

  /** The verdicts after an apply run over the whole table: each applied metro is ready with the
      code it was given, and every other metro keeps its verdict. */
  lemma SecondMatching(norm: Norm, rows: seq<Metro>, catalog: seq<DfsLocation>, sel: Selection, n: nat, i: nat)
    requires DistinctCbsa(rows) && i < |rows|
    requires forall r :: r in Limited(AllCandidates(sel, MatchAll(norm, rows, catalog)), Some(n)) ==> r.code.Some?
    ensures var matches := MatchAll(norm, rows, catalog);
            var after := Applied(rows, Limited(AllCandidates(sel, matches), Some(n)));
            && |after| == |rows|
            && (var again := MatchMetro(norm, after[i], catalog);
                if Chosen(sel, matches, i, n)
                then
                  && again.status == AlreadyReady && again.code == matches[i].code
                  && again.cbsaCode == matches[i].cbsaCode
                else again == matches[i])
  {
    hide MatchMetro, Limited, Chosen, Selectable, WrittenCodes;
    var matches := MatchAll(norm, rows, catalog);
    var candidates := Limited(AllCandidates(sel, matches), Some(n));
    assert matches[..|matches|] == matches;
    forall r | r in candidates ensures exists j :: 0 <= j < |matches| && matches[j] == r && Chosen(sel, matches, j, n) {
      ChosenMeaning(sel, matches, |matches|, n, r);
    }
    forall j | 0 <= j < |rows| ensures matches[j].cbsaCode == rows[j].cbsaCode {
      MatchKeepsIdentity(norm, rows[j], catalog);
    }
    AppliedRow(rows, candidates, i);
    if Chosen(sel, matches, i, n) {
      ChosenMeaning(sel, matches, |matches|, n, matches[i]);
      ChosenIsMatched(sel, matches, i, n);
      MatchIsFixpoint(norm, rows[i], catalog);
    }
  }

  lemma {:induction false} AllCandidatesCoded(
      sel: Selection, norm: Norm, rows: seq<Metro>, catalog: seq<DfsLocation>, n: nat)
    ensures forall r :: r in Limited(AllCandidates(sel, MatchAll(norm, rows, catalog)), Some(n)) ==> r.code.Some?
  {
    hide MatchMetro, Selectable, AllCandidates;
    forall r | r in Limited(AllCandidates(sel, MatchAll(norm, rows, catalog)), Some(n)) ensures r.code.Some? {
      CandidatesSelectable(sel, norm, rows, catalog, r);
    }
  }

  lemma AppliedNothing(rows: seq<Metro>, sel: Selection, n: nat, matches: seq<Match>)
    requires rows == [] && matches == []
    ensures Limited(AllCandidates(sel, matches), Some(n)) == []
    ensures Applied(rows, []) == rows
  {
  }

  /** Running the whole apply twice: a run limited to n candidates leaves exactly the candidates
      after the first n for the next run, so an unlimited run leaves none; in particular no
      exact verdict is left. */
  lemma SecondApplyRun(norm: Norm, rows: seq<Metro>, catalog: seq<DfsLocation>, sel: Selection, n: nat)
    requires DistinctCbsa(rows)
    ensures forall r :: r in Limited(AllCandidates(sel, MatchAll(norm, rows, catalog)), Some(n)) ==> r.code.Some?
    ensures var all := AllCandidates(sel, MatchAll(norm, rows, catalog));
            var after := Applied(rows, Limited(all, Some(n)));
            AllCandidates(sel, MatchAll(norm, after, catalog)) == all[Min(n, |all|)..]
  {
    hide MatchMetro, Limited, Chosen, Applied;
    AllCandidatesCoded(sel, norm, rows, catalog, n);
    var matches := MatchAll(norm, rows, catalog);
    var after := Applied(rows, Limited(AllCandidates(sel, matches), Some(n)));
    if rows == [] {
      assert after == rows by { AppliedNothing(rows, sel, n, matches); }
    } else {
      SecondMatching(norm, rows, catalog, sel, n, 0);
    }
    var again := MatchAll(norm, after, catalog);
    forall i | 0 <= i < |matches|
      ensures if Chosen(sel, matches, i, n) then !Selectable(sel, again[i]) else again[i] == matches[i]
    {
      SecondMatching(norm, rows, catalog, sel, n, i);
    }
    RemainingCandidates(sel, matches, again, n, |matches|);
    assert matches[..|matches|] == matches && again[..|again|] == again;
  }

  lemma {:induction false} RankMonotone(sel: Selection, matches: seq<Match>, i: nat, k: nat)
    requires i <= k <= |matches|
    ensures Rank(sel, matches, i) <= Rank(sel, matches, k)
    decreases k
  {
    hide Selectable;
    if i < k {
      CandidatesGrow(sel, matches, k - 1);
      RankMonotone(sel, matches, i, k - 1);
    }
  }

  /** After an unlimited run no metro of the table has an exact verdict left. */
  lemma UnlimitedRunLeavesNoExact(norm: Norm, rows: seq<Metro>, catalog: seq<DfsLocation>, sel: Selection, i: nat)
    requires DistinctCbsa(rows) && i < |rows|
    ensures forall r :: r in AllCandidates(sel, MatchAll(norm, rows, catalog)) ==> r.code.Some?
    ensures var after := Applied(rows, AllCandidates(sel, MatchAll(norm, rows, catalog)));
            |after| == |rows| && MatchMetro(norm, after[i], catalog).status != Exact
  {
    hide MatchMetro, Applied;
    var matches := MatchAll(norm, rows, catalog);
    var n := |AllCandidates(sel, matches)|;
    assert Limited(AllCandidates(sel, matches), Some(n)) == AllCandidates(sel, matches);
    AllCandidatesCoded(sel, norm, rows, catalog, n);
    SecondMatching(norm, rows, catalog, sel, n, i);
    if matches[i].status == Exact {
      CandidatesGrow(sel, matches, i);
      RankMonotone(sel, matches, i + 1, |matches|);
      assert matches[..|matches|] == matches;
      assert Chosen(sel, matches, i, n);
    }
  }
}

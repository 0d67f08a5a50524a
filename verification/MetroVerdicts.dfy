/** What the verdict on a metro means over the catalog and the metro's own columns. */
module MetroVerdicts {
  import opened Containers
  import opened MetroMatching

  /** Some value of the column has the row's city as its normal form, which is not empty, and the row
      is in one of the metro's states. */
  ghost predicate HitByValue(norm: Norm, states: set<string>, value: string, row: DfsLocation) {
    norm(value) != "" && norm(value) == norm(row.city) && row.state in states
  }

  ghost predicate HitByColumn(norm: Norm, states: set<string>, column: seq<string>, row: DfsLocation) {
    exists v :: v in column && HitByValue(norm, states, v, row)
  }

  /** One of the metro's codes is the row's, and a principal city or the whole name hits the row. */
  ghost predicate Accepts(norm: Norm, m: Metro, row: DfsLocation) {
    row.code in m.existing && HitByColumn(norm, m.states, m.principals + m.wholes, row)
  }

  ghost predicate FirstAccepted(norm: Norm, m: Metro, catalog: seq<DfsLocation>, i: int) {
    && 0 <= i < |catalog| && Accepts(norm, m, catalog[i])
    && forall j :: 0 <= j < i ==> !Accepts(norm, m, catalog[j])
  }

  lemma NormsOfColumns(norm: Norm, m: Metro, n: string)
    ensures n in Norms(norm, Principals(norm, m) + Wholes(norm, m))
            <==> n != "" && exists v :: v in m.principals + m.wholes && norm(v) == n
  {
    DedupeNorms(norm, m.principals);
    DedupeNorms(norm, m.wholes);
    hide DedupePreserveOrder;
    var ps, ws := Principals(norm, m), Wholes(norm, m);
    assert Norms(norm, ps + ws) == Norms(norm, ps) + Norms(norm, ws);
    assert Norms(norm, m.principals + m.wholes) == Norms(norm, m.principals) + Norms(norm, m.wholes);
  }

  lemma CompatibleIsAccepted(norm: Norm, m: Metro, row: DfsLocation)
    ensures IsCompatible(norm, m)(row) <==> Accepts(norm, m, row)
  {
    hide Principals, Wholes;
    NormsOfColumns(norm, m, norm(row.city));
  }

  /** A metro with codes is ready exactly when some catalog row has one of its codes, lies in one of its
      states and is the city of a principal or whole-name value; the first such row is then selected.
      Otherwise its codes are invalid and nothing is selected. */
  lemma ExistingCodesMeaning(norm: Norm, m: Metro, catalog: seq<DfsLocation>)
    requires m.existing != []
    ensures var r := MatchMetro(norm, m, catalog);
            && (r.status == AlreadyReady <==> exists i :: FirstAccepted(norm, m, catalog, i))
            && (r.status == AlreadyReady <==> exists row :: row in catalog && Accepts(norm, m, row))
            && (forall i :: FirstAccepted(norm, m, catalog, i) ==>
                  r.code == Some(catalog[i].code) && r.name == Some(catalog[i].name) && r.city == None)
            && (r.status != AlreadyReady ==>
                  r.status == InvalidExistingCode && r.code == None && r.name == None && r.city == None)
            && r.cbsaCode == m.cbsaCode && r.existing == m.existing
  {
    hide IsCompatible, Accepts, FreshMatch;
    forall row ensures IsCompatible(norm, m)(row) <==> Accepts(norm, m, row) {
      CompatibleIsAccepted(norm, m, row);
    }
    var k := FilterFirst(IsCompatible(norm, m), catalog);
    if CompatibleExistingRows(norm, m, catalog) != [] {
      assert FirstAccepted(norm, m, catalog, k) && catalog[k] in catalog;
      forall i | FirstAccepted(norm, m, catalog, i) ensures i == k { }
    } else {
      forall row | row in catalog ensures !Accepts(norm, m, row) {
        var j :| 0 <= j < |catalog| && catalog[j] == row;
      }
    }
  }

  /** No candidate value hits two rows of the catalog. */
  ghost predicate NoValueTwice(norm: Norm, m: Metro, catalog: seq<DfsLocation>) {
    forall i, j, v :: 0 <= i < j < |catalog| && v in m.principals + m.wholes + m.splits ==>
      !(HitByValue(norm, m.states, v, catalog[i]) && HitByValue(norm, m.states, v, catalog[j]))
  }

  /** All rows that candidate values hit carry one code. */
  ghost predicate OneCodeHit(norm: Norm, m: Metro, catalog: seq<DfsLocation>) {
    var column := m.principals + m.wholes + m.splits;
    forall x, y :: x in catalog && y in catalog ==>
      HitByColumn(norm, m.states, column, x) && HitByColumn(norm, m.states, column, y) ==> x.code == y.code
  }

  ghost predicate ColumnHits(norm: Norm, m: Metro, catalog: seq<DfsLocation>, column: seq<string>) {
    exists row :: row in catalog && HitByColumn(norm, m.states, column, row)
  }

  /** The row is hit by value p of the column, and no earlier value hits anything. */
  ghost predicate FirstHit(
      norm: Norm, m: Metro, catalog: seq<DfsLocation>, column: seq<string>, p: int, row: DfsLocation)
  {
    && 0 <= p < |column| && row in catalog && HitByValue(norm, m.states, column[p], row)
    && forall q, other :: 0 <= q < p && other in catalog ==> !HitByValue(norm, m.states, column[q], other)
  }

  lemma RowsForMeaning(norm: Norm, m: Metro, catalog: seq<DfsLocation>, city: string, row: DfsLocation)
    requires norm(city) != ""
    ensures row in RowsFor(norm, m.states, catalog, city) <==> row in catalog && HitByValue(norm, m.states, city, row)
  {
    FilterMember(IsHit(norm, m.states, city), catalog, row);
  }

  /** The values kept of a column have the same normal forms as the column. */
  lemma KeptHits(norm: Norm, states: set<string>, column: seq<string>, row: DfsLocation)
    ensures HitByColumn(norm, states, column, row) <==>
        HitByColumn(norm, states, DedupePreserveOrder(norm, column), row)
  {
    DedupeNorms(norm, column);
    var kept := DedupePreserveOrder(norm, column);
    hide DedupePreserveOrder;
    if HitByColumn(norm, states, column, row) {
      var v :| v in column && HitByValue(norm, states, v, row);
      assert norm(v) in Norms(norm, kept);
    }
    if HitByColumn(norm, states, kept, row) {
      var v :| v in kept && HitByValue(norm, states, v, row);
      assert norm(v) in Norms(norm, kept);
      assert norm(v) in Norms(norm, column);
    }
  }

  lemma {:induction false} KeptNonEmpty(norm: Norm, values: seq<string>, v: string)
    requires v in DedupePreserveOrder(norm, values)
    ensures norm(v) != "" && v in values
  {
    if v in DedupePreserveOrder(norm, Front(values)) {
      KeptNonEmpty(norm, Front(values), v);
    }
  }

  /** Every value with a normal form has a kept value of its column with the same one. */
  lemma KeptFor(norm: Norm, column: seq<string>, v: string) returns (c: string)
    requires v in column && norm(v) != ""
    ensures c in DedupePreserveOrder(norm, column) && norm(c) == norm(v)
  {
    DedupeNorms(norm, column);
    hide DedupePreserveOrder;
    assert norm(v) in Norms(norm, column);
    assert norm(v) in Norms(norm, DedupePreserveOrder(norm, column));
    c :| c in DedupePreserveOrder(norm, column) && norm(c) == norm(v);
  }

  lemma CandidateFor(norm: Norm, m: Metro, v: string) returns (c: string)
    requires v in m.principals + m.wholes + m.splits && norm(v) != ""
    ensures c in CandidateCities(norm, m) && norm(c) == norm(v)
  {
    hide DedupePreserveOrder;
    if v in m.principals {
      c := KeptFor(norm, m.principals, v);
    } else if v in m.wholes {
      c := KeptFor(norm, m.wholes, v);
    } else {
      c := KeptFor(norm, m.splits, v);
    }
  }

  lemma CandidateIsValue(norm: Norm, m: Metro, c: string)
    requires c in CandidateCities(norm, m)
    ensures norm(c) != "" && c in m.principals + m.wholes + m.splits
  {
    hide DedupePreserveOrder;
    if c in Principals(norm, m) {
      KeptNonEmpty(norm, m.principals, c);
    } else if c in Wholes(norm, m) {
      KeptNonEmpty(norm, m.wholes, c);
    } else {
      KeptNonEmpty(norm, m.splits, c);
    }
  }

  lemma TwiceMeaning(norm: Norm, m: Metro, catalog: seq<DfsLocation>)
    ensures NoCityTwice(norm, m, catalog) <==> NoValueTwice(norm, m, catalog)
  {
    hide CandidateCities;
    if NoCityTwice(norm, m, catalog) {
      forall i, j, v | 0 <= i < j < |catalog| && v in m.principals + m.wholes + m.splits
        ensures !(HitByValue(norm, m.states, v, catalog[i]) && HitByValue(norm, m.states, v, catalog[j]))
      {
        if norm(v) != "" {
          var c := CandidateFor(norm, m, v);
          FilterTwice(IsHit(norm, m.states, c), catalog);
        }
      }
    }
    if NoValueTwice(norm, m, catalog) {
      forall c | c in CandidateCities(norm, m) ensures |RowsFor(norm, m.states, catalog, c)| <= 1 {
        CandidateIsValue(norm, m, c);
        FilterTwice(IsHit(norm, m.states, c), catalog);
        forall i, j | 0 <= i < j < |catalog|
          ensures !(IsHit(norm, m.states, c)(catalog[i]) && IsHit(norm, m.states, c)(catalog[j]))
        {
          assert !(HitByValue(norm, m.states, c, catalog[i]) && HitByValue(norm, m.states, c, catalog[j]));
        }
      }
    }
  }

  lemma RowOfValue(norm: Norm, m: Metro, catalog: seq<DfsLocation>, row: DfsLocation) returns (c: string)
    requires NoCityTwice(norm, m, catalog) && row in catalog
    requires HitByColumn(norm, m.states, m.principals + m.wholes + m.splits, row)
    ensures HasRows(norm, m, catalog, c) && RowsFor(norm, m.states, catalog, c)[0] == row
  {
    hide CandidateCities, RowsFor;
    var v :| v in m.principals + m.wholes + m.splits && HitByValue(norm, m.states, v, row);
    c := CandidateFor(norm, m, v);
    RowsForMeaning(norm, m, catalog, c, row);
    OnlyRow(norm, m, catalog, c, row);
  }

  lemma FirstRowHit(norm: Norm, m: Metro, catalog: seq<DfsLocation>, c: string)
    requires HasRows(norm, m, catalog, c)
    ensures var row := RowsFor(norm, m.states, catalog, c)[0];
            row in catalog && HitByColumn(norm, m.states, m.principals + m.wholes + m.splits, row)
  {
    hide CandidateCities;
    var row := RowsFor(norm, m.states, catalog, c)[0];
    CandidateIsValue(norm, m, c);
    RowsForMeaning(norm, m, catalog, c, row);
    assert row in RowsFor(norm, m.states, catalog, c);
    assert HitByValue(norm, m.states, c, row);
  }

  lemma CodeMeaning(norm: Norm, m: Metro, catalog: seq<DfsLocation>)
    requires NoCityTwice(norm, m, catalog)
    ensures OneCode(norm, m, catalog) <==> OneCodeHit(norm, m, catalog)
  {
    var column := m.principals + m.wholes + m.splits;
    hide CandidateCities, RowsFor, HitByColumn;
    if OneCode(norm, m, catalog) {
      forall x, y | x in catalog && y in catalog
        ensures HitByColumn(norm, m.states, column, x) && HitByColumn(norm, m.states, column, y) ==> x.code == y.code
      {
        if HitByColumn(norm, m.states, column, x) && HitByColumn(norm, m.states, column, y) {
          var c := RowOfValue(norm, m, catalog, x);
          var d := RowOfValue(norm, m, catalog, y);
        }
      }
    }
    if OneCodeHit(norm, m, catalog) {
      forall c | HasRows(norm, m, catalog, c)
        ensures var row := RowsFor(norm, m.states, catalog, c)[0];
                row in catalog && HitByColumn(norm, m.states, column, row)
      {
        FirstRowHit(norm, m, catalog, c);
      }
    }
  }

  lemma HitsMeaning(norm: Norm, m: Metro, catalog: seq<DfsLocation>, column: seq<string>)
    ensures HitBy(norm, m, catalog, DedupePreserveOrder(norm, column)) <==> ColumnHits(norm, m, catalog, column)
  {
    hide DedupePreserveOrder, RowsFor;
    var kept := DedupePreserveOrder(norm, column);
    if HitBy(norm, m, catalog, kept) {
      var c :| c in kept && RowsFor(norm, m.states, catalog, c) != [];
      var row := RowsFor(norm, m.states, catalog, c)[0];
      assert row in RowsFor(norm, m.states, catalog, c);
      KeptNonEmpty(norm, column, c);
      RowsForMeaning(norm, m, catalog, c, row);
      assert row in catalog && HitByColumn(norm, m.states, column, row);
    }
    if ColumnHits(norm, m, catalog, column) {
      var row :| row in catalog && HitByColumn(norm, m.states, column, row);
      var v :| v in column && HitByValue(norm, m.states, v, row);
      var c := KeptFor(norm, column, v);
      RowsForMeaning(norm, m, catalog, c, row);
      assert row in RowsFor(norm, m.states, catalog, c);
    }
  }

  /** The first key of the hits is the first city that has rows. */
  lemma {:induction false} FirstKey(norm: Norm, states: set<string>, catalog: seq<DfsLocation>, cities: seq<string>)
    returns (a: int)
    ensures var h := HitsFor(norm, states, catalog, cities);
            && (h.keys == [] ==> forall b :: 0 <= b < |cities| ==> RowsFor(norm, states, catalog, cities[b]) == [])
            && (h.keys != [] ==>
                  && 0 <= a < |cities| && cities[a] == h.keys[0] && RowsFor(norm, states, catalog, cities[a]) != []
                  && forall b :: 0 <= b < a ==> RowsFor(norm, states, catalog, cities[b]) == [])
  {
    hide RowsFor;
    a := 0;
    if cities != [] {
      var front, last := Front(cities), Last(cities);
      a := FirstKey(norm, states, catalog, front);
      HitsKeys(norm, states, catalog, front);
      assert forall b :: 0 <= b < |front| ==> cities[b] == front[b];
      if HitsFor(norm, states, catalog, front).keys == [] {
        a := |front|;
      }
    }
  }

  lemma KeptAt(norm: Norm, column: seq<string>, kept: seq<string>, positions: seq<int>, a: int)
    requires KeepsFirsts(norm, column, kept, positions) && 0 <= a < |kept|
    ensures |positions| == |kept| && 0 <= positions[a] < |column| && column[positions[a]] == kept[a]
  {
  }

  lemma FirstPosition(norm: Norm, column: seq<string>, q: int) returns (f: int)
    requires 0 <= q < |column| && norm(column[q]) != ""
    ensures FirstWithNorm(norm, column, f) && f <= q && norm(column[f]) == norm(column[q])
    decreases q
  {
    if FirstWithNorm(norm, column, q) {
      f := q;
    } else {
      var j :| 0 <= j < q && norm(column[j]) == norm(column[q]);
      f := FirstPosition(norm, column, j);
    }
  }

  /** A value before the kept value a that hits something has a kept value before a that does. */
  lemma EarlierKept(
      norm: Norm, m: Metro, catalog: seq<DfsLocation>, column: seq<string>, kept: seq<string>, positions: seq<int>,
      a: int, q: int, row: DfsLocation)
    requires KeepsFirsts(norm, column, kept, positions) && 0 <= a < |kept| && 0 <= q < positions[a]
    requires q < |column| && row in catalog && HitByValue(norm, m.states, column[q], row)
    ensures exists b :: 0 <= b < a && RowsFor(norm, m.states, catalog, kept[b]) != []
  {
    hide RowsFor;
    var f := FirstPosition(norm, column, q);
    var b :| 0 <= b < |positions| && positions[b] == f;
    assert b < a;
    assert kept[b] == column[f];
    RowsForMeaning(norm, m, catalog, kept[b], row);
    assert row in RowsFor(norm, m.states, catalog, kept[b]);
  }

  /** A column's first single city stands at the column's first value that hits anything. */
  lemma FirstSingleHit(norm: Norm, m: Metro, catalog: seq<DfsLocation>, column: seq<string>)
    returns (p: int, row: DfsLocation)
    requires ColumnHits(norm, m, catalog, column)
    requires forall c :: c in DedupePreserveOrder(norm, column) ==> |RowsFor(norm, m.states, catalog, c)| <= 1
    ensures FirstHit(norm, m, catalog, column, p, row)
    ensures var h := HitsFor(norm, m.states, catalog, DedupePreserveOrder(norm, column));
            && (forall k :: k in h.keys ==> k in h.vals)
            && FirstSingle(h, h.keys) == Some(column[p])
            && column[p] in h.vals && h.vals[column[p]] == [row]
  {
    hide RowsFor, DedupePreserveOrder, HitByValue, KeepsFirsts;
    var kept := DedupePreserveOrder(norm, column);
    var h := HitsFor(norm, m.states, catalog, kept);
    HitsKeys(norm, m.states, catalog, kept);
    HitsMeaning(norm, m, catalog, column);
    var a := FirstKey(norm, m.states, catalog, kept);
    assert h.keys != [];
    var positions := DedupeMeaning(norm, column);
    KeptAt(norm, column, kept, positions, a);
    p := positions[a];
    row := RowsFor(norm, m.states, catalog, kept[a])[0];
    assert RowsFor(norm, m.states, catalog, kept[a]) == [row] && row in [row];
    KeptNonEmpty(norm, column, kept[a]);
    RowsForMeaning(norm, m, catalog, kept[a], row);
    forall q, other | 0 <= q < p && other in catalog ensures !HitByValue(norm, m.states, column[q], other) {
      if HitByValue(norm, m.states, column[q], other) {
        EarlierKept(norm, m, catalog, column, kept, positions, a, q, other);
      }
    }
  }

  /** The match names the value, the code and the name of the first hit of the column. */
  ghost predicate Selects(
      norm: Norm, m: Metro, catalog: seq<DfsLocation>, column: seq<string>, p: int, row: DfsLocation, r: Match)
  {
    && FirstHit(norm, m, catalog, column, p, row)
    && r.city == Some(column[p]) && r.code == Some(row.code) && r.name == Some(row.name)
  }

  lemma FreshShape(norm: Norm, m: Metro, catalog: seq<DfsLocation>)
    requires m.existing == []
    ensures var r := MatchMetro(norm, m, catalog);
            && r.cbsaCode == m.cbsaCode && r.existing == []
            && (r.status != Exact && r.status != Strong ==> r.code == None && r.name == None && r.city == None)
  {
    hide AmbiguousReason, AllHits, HitsFor, FirstSingle, CompatibleExistingRows;
    NothingCompatible(norm, m, catalog);
  }

  lemma VerdictSelects(norm: Norm, m: Metro, catalog: seq<DfsLocation>)
    requires m.existing == []
    requires var s := MatchMetro(norm, m, catalog).status; s == Exact || s == Strong
    requires NoCityTwice(norm, m, catalog)
    requires MatchMetro(norm, m, catalog).status == Exact ==> ColumnHits(norm, m, catalog, m.principals)
    requires MatchMetro(norm, m, catalog).status == Strong ==> ColumnHits(norm, m, catalog, m.wholes)
    ensures var r := MatchMetro(norm, m, catalog);
            && (r.status == Exact ==> exists p, row :: Selects(norm, m, catalog, m.principals, p, row, r))
            && (r.status == Strong ==> exists p, row :: Selects(norm, m, catalog, m.wholes, p, row, r))
  {
    hide AmbiguousReason, AllHits, HitsFor, FirstSingle, DedupePreserveOrder, RowsFor, ColumnHits, FirstHit;
    hide CompatibleExistingRows;
    NothingCompatible(norm, m, catalog);
    var r := MatchMetro(norm, m, catalog);
    if r.status == Exact {
      var p, row := FirstSingleHit(norm, m, catalog, m.principals);
      assert Selects(norm, m, catalog, m.principals, p, row, r);
    } else {
      var p, row := FirstSingleHit(norm, m, catalog, m.wholes);
      assert Selects(norm, m, catalog, m.wholes, p, row, r);
    }
  }

  /** The verdict on a metro without codes, over the catalog and the metro's columns alone: when it is
      given, and which city, code and name it selects. */
  lemma FreshVerdictMeaning(norm: Norm, m: Metro, catalog: seq<DfsLocation>)
    requires m.existing == []
    ensures var r := MatchMetro(norm, m, catalog);
            var clear := NoValueTwice(norm, m, catalog) && OneCodeHit(norm, m, catalog);
            var principal, whole :=
              ColumnHits(norm, m, catalog, m.principals), ColumnHits(norm, m, catalog, m.wholes);
            && (r.status == Exact <==> clear && principal)
            && (r.status == Strong <==> clear && !principal && whole)
            && (r.status == NoMatch <==>
                  clear && !principal && !whole && !ColumnHits(norm, m, catalog, m.splits))
            && (r.status == Exact || r.status == Strong || r.status == NoMatch || r.status == Ambiguous)
            && (r.status == Exact ==> exists p, row :: Selects(norm, m, catalog, m.principals, p, row, r))
            && (r.status == Strong ==> exists p, row :: Selects(norm, m, catalog, m.wholes, p, row, r))
            && (r.status != Exact && r.status != Strong ==> r.code == None && r.name == None && r.city == None)
            && r.cbsaCode == m.cbsaCode && r.existing == []
  {
    hide NoCityTwice, OneCode, NoValueTwice, OneCodeHit, ColumnHits, HitBy, DedupePreserveOrder, Selects, MatchMetro;
    VerdictMeaning(norm, m, catalog);
    TwiceMeaning(norm, m, catalog);
    if NoCityTwice(norm, m, catalog) {
      CodeMeaning(norm, m, catalog);
    }
    HitsMeaning(norm, m, catalog, m.principals);
    HitsMeaning(norm, m, catalog, m.wholes);
    HitsMeaning(norm, m, catalog, m.splits);
    FreshShape(norm, m, catalog);
    if MatchMetro(norm, m, catalog).status == Exact || MatchMetro(norm, m, catalog).status == Strong {
      VerdictSelects(norm, m, catalog);
    }
  }
}

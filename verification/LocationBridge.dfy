/** Resolving place suggestions to location codes: a linear scorer over all rows, and an index
    by city name that must find the same codes. */
module LocationBridge {
  import opened Containers

  // ----- Text ------------------------------------------------------------------------------

  /** Character and case conversions of the source, left uninterpreted. */
  datatype PlaceText = PlaceText(isSpace: char -> bool, norm: string -> string, upper: string -> string,
      lower: string -> string)

  /** A comma is not white space. */
  ghost predicate CommaIsText(ops: PlaceText) {
    !ops.isSpace(',')
  }

  function LStrip(ops: PlaceText, s: string): string {
    if s != "" && ops.isSpace(s[0]) then LStrip(ops, s[1..]) else s
  }

  function RStrip(ops: PlaceText, s: string): string {
    if s != "" && ops.isSpace(Last(s)) then RStrip(ops, Front(s)) else s
  }

  function Strip(ops: PlaceText, s: string): string {
    RStrip(ops, LStrip(ops, s))
  }

  /** The pieces of piece + s between commas, piece being free of them. */
  function SplitFrom(piece: string, s: string): (pieces: seq<string>)
    ensures pieces != []
    decreases |s|
  {
    if s == "" then [piece]
    else if s[0] == ',' then [piece] + SplitFrom("", s[1..])
    else SplitFrom(piece + [s[0]], s[1..])
  }

  /** s.split(",") */
  function Split(s: string): seq<string> {
    SplitFrom("", s)
  }

  /** The stripped pieces, without the empty ones. */
  function StripAll(ops: PlaceText, pieces: seq<string>): seq<string> {
    if pieces == [] then []
    else
      var p := Strip(ops, pieces[0]);
      (if p == "" then [] else [p]) + StripAll(ops, pieces[1..])
  }

  function Parts(ops: PlaceText, name: string): seq<string> {
    StripAll(ops, Split(name))
  }

  predicate Contains(hay: string, needle: string) {
    exists i :: 0 <= i <= |hay| && needle <= hay[i..]
  }

  /** needle stands somewhere in hay. */
  ghost predicate Occurs(needle: string, hay: string) {
    exists before: string, after: string :: hay == before + needle + after
  }

  lemma OccursMeaning(hay: string, needle: string)
    ensures Contains(hay, needle) <==> Occurs(needle, hay)
  {
    if Contains(hay, needle) {
      var i :| 0 <= i <= |hay| && needle <= hay[i..];
      assert hay == hay[..i] + needle + hay[i + |needle|..];
    }
    if Occurs(needle, hay) {
      var before: string, after: string :| hay == before + needle + after;
      assert hay[|before|..] == needle + after;
      assert needle <= hay[|before|..];
    }
  }

  lemma StripLeadingSpace(ops: PlaceText, c: char, s: string)
    requires ops.isSpace(c)
    ensures Strip(ops, [c] + s) == Strip(ops, s)
  {
    assert ([c] + s)[1..] == s;
  }

  lemma {:induction false} LStripTrailing(ops: PlaceText, s: string, c: char)
    requires ops.isSpace(c)
    ensures LStrip(ops, s + [c]) == if LStrip(ops, s) == "" then "" else LStrip(ops, s) + [c]
  {
    if s == "" {
      assert s + [c] == [c] && [c][1..] == "";
    } else if ops.isSpace(s[0]) {
      assert (s + [c])[1..] == s[1..] + [c];
      LStripTrailing(ops, s[1..], c);
    }
  }

  lemma StripTrailingSpace(ops: PlaceText, s: string, c: char)
    requires ops.isSpace(c)
    ensures Strip(ops, s + [c]) == Strip(ops, s)
  {
    LStripTrailing(ops, s, c);
    var t := LStrip(ops, s);
    if t != "" {
      assert Front(t + [c]) == t;
    }
  }

  lemma {:induction false} SplitSnoc(piece: string, s: string, c: char)
    requires c != ','
    ensures var pieces := SplitFrom(piece, s);
            SplitFrom(piece, s + [c]) == Front(pieces) + [Last(pieces) + [c]]
    decreases |s|
  {
    if s == "" {
      assert s + [c] == [c] && [c][1..] == "";
    } else {
      var t := s + [c];
      assert t[1..] == s[1..] + [c] && t[0] == s[0];
      if s[0] == ',' {
        SplitSnoc("", s[1..], c);
      } else {
        SplitSnoc(piece + [s[0]], s[1..], c);
      }
    }
  }

  lemma {:induction false} LeadingSpaceVanishes(ops: PlaceText, c: char, piece: string, s: string)
    requires ops.isSpace(c)
    ensures StripAll(ops, SplitFrom([c] + piece, s)) == StripAll(ops, SplitFrom(piece, s))
    decreases |s|
  {
    hide Strip;
    StripLeadingSpace(ops, c, piece);
    if s != "" {
      if s[0] == ',' {
        var rest := SplitFrom("", s[1..]);
        assert ([[c] + piece] + rest)[1..] == rest && ([piece] + rest)[1..] == rest;
      } else {
        LeadingSpaceVanishes(ops, c, piece + [s[0]], s[1..]);
        assert [c] + piece + [s[0]] == [c] + (piece + [s[0]]);
      }
    } else {
      assert [[c] + piece][1..] == [] && [piece][1..] == [];
    }
  }

  lemma {:induction false} StripAllSameLast(ops: PlaceText, front: seq<string>, x: string, y: string)
    requires Strip(ops, x) == Strip(ops, y)
    ensures StripAll(ops, front + [x]) == StripAll(ops, front + [y])
  {
    hide Strip;
    if front == [] {
      assert front + [x] == [x] && front + [y] == [y];
    } else {
      assert (front + [x])[1..] == front[1..] + [x] && (front + [y])[1..] == front[1..] + [y];
      StripAllSameLast(ops, front[1..], x, y);
    }
  }

  lemma {:induction false} PartsOfLStrip(ops: PlaceText, s: string)
    requires CommaIsText(ops)
    ensures Parts(ops, LStrip(ops, s)) == Parts(ops, s)
  {
    hide Strip;
    if s != "" && ops.isSpace(s[0]) {
      PartsOfLStrip(ops, s[1..]);
      LeadingSpaceVanishes(ops, s[0], "", s[1..]);
      assert "" + [s[0]] == [s[0]] + "";
    }
  }

  lemma {:induction false} PartsOfRStrip(ops: PlaceText, s: string)
    requires CommaIsText(ops)
    ensures Parts(ops, RStrip(ops, s)) == Parts(ops, s)
  {
    hide Strip, SplitFrom;
    if s != "" && ops.isSpace(Last(s)) {
      PartsOfRStrip(ops, Front(s));
      assert s == Front(s) + [Last(s)];
      SplitSnoc("", Front(s), Last(s));
      var pieces := Split(Front(s));
      StripTrailingSpace(ops, Last(pieces), Last(s));
      StripAllSameLast(ops, Front(pieces), Last(pieces), Last(pieces) + [Last(s)]);
      assert pieces == Front(pieces) + [Last(pieces)];
    }
  }

  /** The scorer strips the whole name before splitting it, the index does not: no difference. */
  lemma PartsOfStripped(ops: PlaceText, s: string)
    requires CommaIsText(ops)
    ensures Parts(ops, Strip(ops, s)) == Parts(ops, s)
  {
    PartsOfLStrip(ops, s);
    PartsOfRStrip(ops, LStrip(ops, s));
  }

  // ----- Rows and suggestions --------------------------------------------------------------

  /** A location row; code is None when it is missing or not an integer. */
  datatype LocationRow = LocationRow(name: string, country: string, locationType: string, code: Option<int>)

  datatype Suggestion = Suggestion(city: string, fullName: string, country: string)

  datatype Confidence = High | Medium | Low

  datatype Resolution = Resolution(code: Option<int>, confidence: Option<Confidence>)

  const UNRESOLVED := Resolution(None, None)

  predicate OtherCountry(ops: PlaceText, s: Suggestion, row: LocationRow) {
    var wanted, own := ops.upper(s.country), ops.upper(Strip(ops, row.country));
    wanted != "" && own != "" && own != wanted
  }

  /** 110 when the state part of a same-name city occurs in the full name, else 100. */
  function CityScore(ops: PlaceText, s: Suggestion, parts: seq<string>): int {
    if |parts| > 1 && ops.norm(parts[1]) != "" && Contains(ops.norm(s.fullName), ops.norm(parts[1])) then 110 else 100
  }

  /** The score of one row in the linear scan; rows passed over score 0. */
  function RowScore(ops: PlaceText, s: Suggestion, row: LocationRow): int {
    var name := Strip(ops, row.name);
    var city := ops.norm(s.city);
    var parts := Parts(ops, name);
    var primary := if parts != [] then ops.norm(parts[0]) else "";
    if name == "" || OtherCountry(ops, s, row) then 0
    else if city != "" && primary == city then CityScore(ops, s, parts)
    else if city != "" && Contains(ops.norm(name), city) then 75
    else if primary != "" && Contains(ops.norm(s.fullName), primary) then 55
    else 0
  }

  datatype Best = Best(code: Option<int>, score: int)

  /** A row replaces the best so far only when it scores strictly higher and has a code. */
  function Better(best: Best, score: int, code: Option<int>): Best {
    if score <= best.score || code.None? then best else Best(code, score)
  }

  function ScanBest(ops: PlaceText, s: Suggestion, rows: seq<LocationRow>): Best {
    if rows == [] then Best(None, 0)
    else Better(ScanBest(ops, s, Front(rows)), RowScore(ops, s, Last(rows)), Last(rows).code)
  }

  function Resolve(ops: PlaceText, s: Suggestion, rows: seq<LocationRow>): Resolution {
    var best := ScanBest(ops, s, rows);
    if ops.norm(s.city) == "" || best.code == None then UNRESOLVED
    else if best.score >= 95 then Resolution(best.code, Some(High))
    else if best.score >= 70 then Resolution(best.code, Some(Medium))
    else if best.score >= 50 then Resolution(None, Some(Low))
    else UNRESOLVED
  }

  /** Row i has a code and scores above zero, no row with a code scores higher, and every earlier
      row with a code scores strictly lower. */
  ghost predicate Leads(ops: PlaceText, s: Suggestion, rows: seq<LocationRow>, i: int) {
    && 0 <= i < |rows| && rows[i].code.Some? && RowScore(ops, s, rows[i]) > 0
    && (forall j :: 0 <= j < |rows| && rows[j].code.Some? ==> RowScore(ops, s, rows[j]) <= RowScore(ops, s, rows[i]))
    && (forall j :: 0 <= j < i && rows[j].code.Some? ==> RowScore(ops, s, rows[j]) < RowScore(ops, s, rows[i]))
  }

  /** Some row with a code says anything about the suggestion. */
  ghost predicate AnyScores(ops: PlaceText, s: Suggestion, rows: seq<LocationRow>) {
    exists i :: 0 <= i < |rows| && rows[i].code.Some? && RowScore(ops, s, rows[i]) > 0
  }

  ghost predicate LeaderIs(ops: PlaceText, s: Suggestion, rows: seq<LocationRow>, best: Best) {
    exists i :: Leads(ops, s, rows, i) && rows[i].code == best.code && RowScore(ops, s, rows[i]) == best.score
  }

  lemma LeaderStays(ops: PlaceText, s: Suggestion, front: seq<LocationRow>, last: LocationRow, best: Best)
    requires LeaderIs(ops, s, front, best) && (last.code.None? || RowScore(ops, s, last) <= best.score)
    ensures LeaderIs(ops, s, front + [last], best)
  {
    hide RowScore;
    var i :| Leads(ops, s, front, i) && front[i].code == best.code && RowScore(ops, s, front[i]) == best.score;
    assert (front + [last])[i] == front[i];
    assert Leads(ops, s, front + [last], i);
  }

  lemma NewLeader(ops: PlaceText, s: Suggestion, front: seq<LocationRow>, last: LocationRow)
    requires last.code.Some? && RowScore(ops, s, last) > 0
    requires forall j :: 0 <= j < |front| && front[j].code.Some? ==> RowScore(ops, s, front[j]) < RowScore(ops, s, last)
    ensures LeaderIs(ops, s, front + [last], Best(last.code, RowScore(ops, s, last)))
  {
    hide RowScore;
    assert (front + [last])[|front|] == last;
    assert Leads(ops, s, front + [last], |front|);
  }

  lemma LeaderScores(ops: PlaceText, s: Suggestion, rows: seq<LocationRow>, best: Best)
    requires LeaderIs(ops, s, rows, best)
    ensures best.code.Some? && best.score > 0 && AnyScores(ops, s, rows)
    ensures forall j :: 0 <= j < |rows| && rows[j].code.Some? ==> RowScore(ops, s, rows[j]) <= best.score
  {
    hide RowScore;
  }

  /** The scan's best row is the first of the highest-scoring rows with a code. */
  lemma {:induction false} ScanFindsLeader(ops: PlaceText, s: Suggestion, rows: seq<LocationRow>)
    ensures var best := ScanBest(ops, s, rows);
            if AnyScores(ops, s, rows) then LeaderIs(ops, s, rows, best) else best == Best(None, 0)
  {
    hide RowScore, Leads, LeaderIs;
    if rows != [] {
      var front, last := Front(rows), Last(rows);
      assert rows == front + [last];
      ScanFindsLeader(ops, s, front);
      var before, score := ScanBest(ops, s, front), RowScore(ops, s, last);
      if AnyScores(ops, s, front) {
        LeaderScores(ops, s, front, before);
        if score > before.score && last.code.Some? {
          NewLeader(ops, s, front, last);
        } else {
          LeaderStays(ops, s, front, last, before);
        }
        LeaderScores(ops, s, rows, ScanBest(ops, s, rows));
      } else if score > 0 && last.code.Some? {
        NewLeader(ops, s, front, last);
        LeaderScores(ops, s, rows, ScanBest(ops, s, rows));
      }
    }
  }

  lemma OneLeader(ops: PlaceText, s: Suggestion, rows: seq<LocationRow>, i: int, j: int)
    requires Leads(ops, s, rows, i) && Leads(ops, s, rows, j)
    ensures i == j
  {
    hide RowScore;
  }

  /** What a row with this code and score resolves to when it leads. */
  function Graded(code: Option<int>, score: int): Resolution {
    if score >= 95 then Resolution(code, Some(High))
    else if score >= 70 then Resolution(code, Some(Medium))
    else if score >= 50 then Resolution(None, Some(Low))
    else UNRESOLVED
  }

  /** The leading row alone decides; without a city or a leading row nothing is resolved. */
  lemma ResolveMeaning(ops: PlaceText, s: Suggestion, rows: seq<LocationRow>)
    ensures forall i :: Leads(ops, s, rows, i) && ops.norm(s.city) != "" ==>
              Resolve(ops, s, rows) == Graded(rows[i].code, RowScore(ops, s, rows[i]))
    ensures ops.norm(s.city) == "" || !AnyScores(ops, s, rows) ==> Resolve(ops, s, rows) == UNRESOLVED
    ensures AnyScores(ops, s, rows) <==> exists i :: Leads(ops, s, rows, i)
  {
    hide RowScore, ScanBest;
    ScanFindsLeader(ops, s, rows);
    forall i | Leads(ops, s, rows, i) && ops.norm(s.city) != ""
      ensures Resolve(ops, s, rows) == Graded(rows[i].code, RowScore(ops, s, rows[i]))
    {
      var best := ScanBest(ops, s, rows);
      var k :| Leads(ops, s, rows, k) && rows[k].code == best.code && RowScore(ops, s, rows[k]) == best.score;
      OneLeader(ops, s, rows, i, k);
    }
  }

  // ----- What a resolution means, over the names of the rows -------------------------------

  /** A row that can decide: it has a code and a name, and no other country than the suggestion's. */
  ghost predicate CanDecide(ops: PlaceText, s: Suggestion, row: LocationRow) {
    var wanted, own := ops.upper(s.country), ops.upper(Strip(ops, row.country));
    row.code.Some? && Strip(ops, row.name) != "" && (wanted == "" || own == "" || wanted == own)
  }

  /** How a row's name fits a suggestion, from best to worst: its primary name is the city, and its state
      occurs in the full name; its primary name is the city; it contains the city; its primary name
      occurs in the full name. */
  datatype Kind = CityAndState | CityOnly | ContainsCity | Mentioned

  ghost predicate PrimaryIsCity(ops: PlaceText, s: Suggestion, row: LocationRow) {
    var parts := Parts(ops, Strip(ops, row.name));
    parts != [] && ops.norm(parts[0]) == ops.norm(s.city)
  }

  ghost predicate StateOccurs(ops: PlaceText, s: Suggestion, row: LocationRow) {
    var parts := Parts(ops, Strip(ops, row.name));
    |parts| > 1 && ops.norm(parts[1]) != "" && Occurs(ops.norm(parts[1]), ops.norm(s.fullName))
  }

  ghost predicate PrimaryOccurs(ops: PlaceText, s: Suggestion, row: LocationRow) {
    var parts := Parts(ops, Strip(ops, row.name));
    parts != [] && ops.norm(parts[0]) != "" && Occurs(ops.norm(parts[0]), ops.norm(s.fullName))
  }

  ghost predicate Fits(ops: PlaceText, s: Suggestion, row: LocationRow, kind: Kind) {
    && CanDecide(ops, s, row)
    && match kind
       case CityAndState => PrimaryIsCity(ops, s, row) && StateOccurs(ops, s, row)
       case CityOnly => PrimaryIsCity(ops, s, row)
       case ContainsCity => Occurs(ops.norm(s.city), ops.norm(Strip(ops, row.name)))
       case Mentioned => PrimaryOccurs(ops, s, row)
  }

  /** Row i is the first that fits in this way. */
  ghost predicate FirstFit(ops: PlaceText, s: Suggestion, rows: seq<LocationRow>, kind: Kind, i: int) {
    && 0 <= i < |rows| && Fits(ops, s, rows[i], kind)
    && forall j :: 0 <= j < i ==> !Fits(ops, s, rows[j], kind)
  }

  ghost predicate NoneFits(ops: PlaceText, s: Suggestion, rows: seq<LocationRow>, kind: Kind) {
    forall j :: 0 <= j < |rows| ==> !Fits(ops, s, rows[j], kind)
  }

  /** What the first row of the best kind resolves to. */
  ghost predicate IsAnswer(ops: PlaceText, s: Suggestion, rows: seq<LocationRow>, r: Resolution) {
    if ops.norm(s.city) == "" then r == Resolution(None, None)
    else if !NoneFits(ops, s, rows, CityAndState) then
      exists i :: FirstFit(ops, s, rows, CityAndState, i) && r == Resolution(rows[i].code, Some(High))
    else if !NoneFits(ops, s, rows, CityOnly) then
      exists i :: FirstFit(ops, s, rows, CityOnly, i) && r == Resolution(rows[i].code, Some(High))
    else if !NoneFits(ops, s, rows, ContainsCity) then
      exists i :: FirstFit(ops, s, rows, ContainsCity, i) && r == Resolution(rows[i].code, Some(Medium))
    else if !NoneFits(ops, s, rows, Mentioned) then r == Resolution(None, Some(Low))
    else r == Resolution(None, None)
  }

  /** The score of a row that can decide tells the best kind in which it fits. */
  lemma ScoreTellsKind(ops: PlaceText, s: Suggestion, row: LocationRow)
    requires row.code.Some? && ops.norm(s.city) != ""
    ensures RowScore(ops, s, row)
         == if Fits(ops, s, row, CityAndState) then 110
            else if Fits(ops, s, row, CityOnly) then 100
            else if Fits(ops, s, row, ContainsCity) then 75
            else if Fits(ops, s, row, Mentioned) then 55
            else 0
  {
    hide Parts, Strip;
    var parts := Parts(ops, Strip(ops, row.name));
    OccursMeaning(ops.norm(s.fullName), if |parts| > 1 then ops.norm(parts[1]) else "");
    OccursMeaning(ops.norm(s.fullName), if parts != [] then ops.norm(parts[0]) else "");
    OccursMeaning(ops.norm(Strip(ops, row.name)), ops.norm(s.city));
    hide Contains, Occurs;
  }

  lemma FitsHasCode(ops: PlaceText, s: Suggestion, row: LocationRow, kind: Kind)
    requires Fits(ops, s, row, kind)
    ensures row.code.Some?
  {
  }

  /** The leading row is the first of the best kind that any row has. */
  lemma LeaderIsFirstFit(ops: PlaceText, s: Suggestion, rows: seq<LocationRow>, i: int, kind: Kind)
    requires Leads(ops, s, rows, i) && ops.norm(s.city) != "" && Fits(ops, s, rows[i], kind)
    requires kind != CityAndState ==> !Fits(ops, s, rows[i], CityAndState)
    requires kind != CityAndState && kind != CityOnly ==> !Fits(ops, s, rows[i], CityOnly)
    requires kind == Mentioned ==> !Fits(ops, s, rows[i], ContainsCity)
    ensures FirstFit(ops, s, rows, kind, i)
    ensures kind != CityAndState ==> NoneFits(ops, s, rows, CityAndState)
    ensures kind != CityAndState && kind != CityOnly ==> NoneFits(ops, s, rows, CityOnly)
    ensures kind == Mentioned ==> NoneFits(ops, s, rows, ContainsCity)
  {
    ScoreTellsKind(ops, s, rows[i]);
    forall j, k | 0 <= j < |rows| && Fits(ops, s, rows[j], k)
      ensures RowScore(ops, s, rows[j]) <= RowScore(ops, s, rows[i])
      ensures j < i ==> RowScore(ops, s, rows[j]) < RowScore(ops, s, rows[i])
      ensures RowScore(ops, s, rows[j])
           >= match k { case CityAndState => 110 case CityOnly => 100 case ContainsCity => 75 case Mentioned => 55 }
    {
      FitsHasCode(ops, s, rows[j], k);
      ScoreTellsKind(ops, s, rows[j]);
    }
    hide RowScore, Fits;
  }

  /** Without a leading row nothing fits in any way. */
  lemma NothingFits(ops: PlaceText, s: Suggestion, rows: seq<LocationRow>, kind: Kind)
    requires !AnyScores(ops, s, rows) && ops.norm(s.city) != ""
    ensures NoneFits(ops, s, rows, kind)
  {
    forall j | 0 <= j < |rows| ensures !Fits(ops, s, rows[j], kind) {
      if Fits(ops, s, rows[j], kind) {
        FitsHasCode(ops, s, rows[j], kind);
        ScoreTellsKind(ops, s, rows[j]);
      }
    }
  }

  lemma FirstFitFits(ops: PlaceText, s: Suggestion, rows: seq<LocationRow>, kind: Kind, i: int)
    requires FirstFit(ops, s, rows, kind, i)
    ensures !NoneFits(ops, s, rows, kind) && 0 <= i < |rows|
  {
  }

  lemma LeaderAnswers(ops: PlaceText, s: Suggestion, rows: seq<LocationRow>, i: int)
    requires Leads(ops, s, rows, i) && ops.norm(s.city) != ""
    ensures IsAnswer(ops, s, rows, Graded(rows[i].code, RowScore(ops, s, rows[i])))
  {
    ScoreTellsKind(ops, s, rows[i]);
    var score := RowScore(ops, s, rows[i]);
    assert score > 0;
    var kind :=
      if score == 110 then CityAndState else if score == 100 then CityOnly
      else if score == 75 then ContainsCity else Mentioned;
    assert Fits(ops, s, rows[i], kind);
    hide RowScore, Fits, FirstFit, NoneFits;
    LeaderIsFirstFit(ops, s, rows, i, kind);
    FirstFitFits(ops, s, rows, kind, i);
  }

  /** The scan resolves to the first row of the best kind. */
  lemma ResolveIsAnswer(ops: PlaceText, s: Suggestion, rows: seq<LocationRow>)
    ensures IsAnswer(ops, s, rows, Resolve(ops, s, rows))
  {
    hide RowScore, Resolve, Leads, AnyScores, Fits, FirstFit, NoneFits;
    ResolveMeaning(ops, s, rows);
    if ops.norm(s.city) != "" {
      if AnyScores(ops, s, rows) {
        var i :| Leads(ops, s, rows, i);
        LeaderAnswers(ops, s, rows, i);
      } else {
        NothingFits(ops, s, rows, CityAndState);
        NothingFits(ops, s, rows, CityOnly);
        NothingFits(ops, s, rows, ContainsCity);
        NothingFits(ops, s, rows, Mentioned);
      }
    }
  }

  /** Resolves to the first of the highest-scoring rows with a code, graded by its score. */
  method ResolveDataforseoLocation(ops: PlaceText, s: Suggestion, rows: seq<LocationRow>) returns (r: Resolution)
    ensures r == Resolve(ops, s, rows)
    ensures forall i :: Leads(ops, s, rows, i) && ops.norm(s.city) != "" ==>
              r == Graded(rows[i].code, RowScore(ops, s, rows[i]))
    ensures ops.norm(s.city) == "" || !AnyScores(ops, s, rows) ==> r == UNRESOLVED
    ensures IsAnswer(ops, s, rows, r)
  {
    hide RowScore, Leads, AnyScores, IsAnswer;
    ResolveMeaning(ops, s, rows);
    ResolveIsAnswer(ops, s, rows);
    if ops.norm(s.city) == "" { return UNRESOLVED; }
    var bestCode: Option<int>, bestScore := None, 0;
    for i := 0 to |rows|
      invariant Best(bestCode, bestScore) == ScanBest(ops, s, rows[..i])
    {
      assert Front(rows[..i + 1]) == rows[..i];
      var score := RowScore(ops, s, rows[i]);
      if score <= bestScore { continue; }
      if rows[i].code.None? { continue; }
      bestScore, bestCode := score, rows[i].code;
    }
    assert rows[..|rows|] == rows;
    if bestCode == None { return UNRESOLVED; }
    if bestScore >= 95 { return Resolution(bestCode, Some(High)); }
    if bestScore >= 70 { return Resolution(bestCode, Some(Medium)); }
    if bestScore >= 50 { return Resolution(None, Some(Low)); }
    return UNRESOLVED;
  }

  // ----- The index -------------------------------------------------------------------------

  type Index = map<string, seq<LocationRow>>

  /** The index key of a row: its normalised primary name, or nothing. */
  function IndexKey(ops: PlaceText, row: LocationRow): string {
    var parts := Parts(ops, row.name);
    if parts == [] then "" else ops.norm(parts[0])
  }

  function Candidates(index: Index, key: string): seq<LocationRow> {
    if key in index then index[key] else []
  }

  function BuildIndex(ops: PlaceText, rows: seq<LocationRow>): Index {
    if rows == [] then map[]
    else
      var before := BuildIndex(ops, Front(rows));
      var key := IndexKey(ops, Last(rows));
      if key == "" then before else before[key := Candidates(before, key) + [Last(rows)]]
  }

  function HasKey(ops: PlaceText, key: string): LocationRow -> bool {
    (row: LocationRow) => IndexKey(ops, row) == key
  }

  /** Under a key the index lists exactly the rows with that key, in row order. */
  lemma {:induction false} IndexListsRows(ops: PlaceText, rows: seq<LocationRow>, key: string)
    requires key != ""
    ensures Candidates(BuildIndex(ops, rows), key) == Filter(HasKey(ops, key), rows)
  {
    hide IndexKey;
    if rows != [] {
      IndexListsRows(ops, Front(rows), key);
    }
  }

  function IndexedScore(ops: PlaceText, s: Suggestion, row: LocationRow): int {
    CityScore(ops, s, Parts(ops, Strip(ops, row.name)))
  }

  function IndexedBest(ops: PlaceText, s: Suggestion, rows: seq<LocationRow>): Best {
    if rows == [] then Best(None, 0)
    else
      var before := IndexedBest(ops, s, Front(rows));
      if OtherCountry(ops, s, Last(rows)) then before
      else Better(before, IndexedScore(ops, s, Last(rows)), Last(rows).code)
  }

  function ResolveIndexed(ops: PlaceText, s: Suggestion, index: Index): Resolution {
    var city := ops.norm(s.city);
    var best := IndexedBest(ops, s, Candidates(index, city));
    if city == "" || best.code == None then UNRESOLVED else Resolution(best.code, Some(High))
  }

  // ----- Index and scan agree --------------------------------------------------------------

  lemma NoParts(ops: PlaceText)
    ensures Parts(ops, "") == []
  {
    assert Split("") == [""] && [""][1..] == [];
    assert Strip(ops, [""][0]) == "" && StripAll(ops, []) == [];
  }

  /** A row with the suggestion's city as primary name scores as in the index, and every other
      row scores below the confidence limit. */
  lemma ScoreByKey(ops: PlaceText, s: Suggestion, row: LocationRow)
    requires CommaIsText(ops) && ops.norm(s.city) != ""
    ensures IndexKey(ops, row) == ops.norm(s.city) ==>
              RowScore(ops, s, row) == if OtherCountry(ops, s, row) then 0 else IndexedScore(ops, s, row)
    ensures IndexKey(ops, row) != ops.norm(s.city) ==> RowScore(ops, s, row) <= 75
  {
    hide Contains, OtherCountry, Strip, SplitFrom, StripAll;
    PartsOfStripped(ops, row.name);
    if Strip(ops, row.name) == "" {
      NoParts(ops);
    }
  }

  /** How the best row of the scan relates to the best row under the suggestion's city. */
  ghost predicate Follows(scan: Best, indexed: Best) {
    if indexed.code.Some? then scan == indexed && indexed.score >= 100
    else indexed.score == 0 && 0 <= scan.score <= 75
  }

  lemma ScoreRange(ops: PlaceText, s: Suggestion, row: LocationRow)
    ensures RowScore(ops, s, row) >= 0 && IndexedScore(ops, s, row) >= 100
  {
    hide Contains, OtherCountry, Strip, SplitFrom, StripAll;
  }

  lemma FollowsStep(ops: PlaceText, s: Suggestion, row: LocationRow, scan: Best, indexed: Best)
    requires CommaIsText(ops) && ops.norm(s.city) != "" && Follows(scan, indexed)
    ensures Follows(Better(scan, RowScore(ops, s, row), row.code),
                    if IndexKey(ops, row) == ops.norm(s.city) && !OtherCountry(ops, s, row)
                    then Better(indexed, IndexedScore(ops, s, row), row.code) else indexed)
  {
    hide RowScore, IndexedScore, OtherCountry, IndexKey;
    ScoreByKey(ops, s, row);
    ScoreRange(ops, s, row);
  }

  lemma {:induction false} ScanFollowsIndex(ops: PlaceText, s: Suggestion, rows: seq<LocationRow>)
    requires CommaIsText(ops) && ops.norm(s.city) != ""
    ensures Follows(ScanBest(ops, s, rows), IndexedBest(ops, s, Filter(HasKey(ops, ops.norm(s.city)), rows)))
  {
    hide RowScore, IndexedScore, OtherCountry, IndexKey, Better, CommaIsText;
    if rows != [] {
      var p, front, row := HasKey(ops, ops.norm(s.city)), Front(rows), Last(rows);
      ScanFollowsIndex(ops, s, front);
      var kept := Filter(p, front);
      FollowsStep(ops, s, row, ScanBest(ops, s, front), IndexedBest(ops, s, kept));
      if p(row) {
        assert Filter(p, rows) == kept + [row];
        assert Front(kept + [row]) == kept && Last(kept + [row]) == row;
      } else {
        assert Filter(p, rows) == kept;
      }
    }
  }

  /** The index finds a code exactly when the scan over the same rows is highly confident, and
      then it is the same code, ties included. */
  lemma IndexAgreesWithScan(ops: PlaceText, s: Suggestion, rows: seq<LocationRow>)
    requires CommaIsText(ops)
    ensures var scan, indexed := Resolve(ops, s, rows), ResolveIndexed(ops, s, BuildIndex(ops, rows));
            && (indexed.code.Some? <==> scan.confidence == Some(High))
            && (indexed.code.Some? ==> indexed == scan)
            && (indexed.code.None? ==> indexed == UNRESOLVED)
  {
    hide BuildIndex, ScanBest, IndexedBest;
    if ops.norm(s.city) != "" {
      IndexListsRows(ops, rows, ops.norm(s.city));
      ScanFollowsIndex(ops, s, rows);
    }
  }

  /** What the index can answer: the first two kinds of fit. */
  ghost predicate IsIndexedAnswer(ops: PlaceText, s: Suggestion, rows: seq<LocationRow>, r: Resolution) {
    if ops.norm(s.city) == "" then r == Resolution(None, None)
    else if !NoneFits(ops, s, rows, CityAndState) then
      exists i :: FirstFit(ops, s, rows, CityAndState, i) && r == Resolution(rows[i].code, Some(High))
    else if !NoneFits(ops, s, rows, CityOnly) then
      exists i :: FirstFit(ops, s, rows, CityOnly, i) && r == Resolution(rows[i].code, Some(High))
    else r == Resolution(None, None)
  }

  /** A lookup in the index of the rows gives the first row whose primary name is the city and whose state
      occurs in the full name, else the first whose primary name is the city, else nothing. */
  lemma IndexedIsAnswer(ops: PlaceText, s: Suggestion, rows: seq<LocationRow>)
    requires CommaIsText(ops)
    ensures IsIndexedAnswer(ops, s, rows, ResolveIndexed(ops, s, BuildIndex(ops, rows)))
  {
    hide Resolve, ResolveIndexed, BuildIndex, NoneFits, FirstFit;
    IndexAgreesWithScan(ops, s, rows);
    ResolveIsAnswer(ops, s, rows);
  }
}

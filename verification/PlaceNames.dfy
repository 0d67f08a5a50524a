/** What stripping a place name and splitting it into parts gives. */
module PlaceNames {
  import opened Containers
  import opened LocationBridge

  ghost predicate AllSpace(ops: PlaceText, s: string) {
    forall i :: 0 <= i < |s| ==> ops.isSpace(s[i])
  }

  /** t is s without surrounding white space. */
  ghost predicate IsTrimmed(ops: PlaceText, s: string, t: string) {
    && (exists before: string, after: string ::
          s == before + t + after && AllSpace(ops, before) && AllSpace(ops, after))
    && (t != "" ==> !ops.isSpace(t[0]) && !ops.isSpace(t[|t| - 1]))
  }

  lemma {:induction false} LStripTrims(ops: PlaceText, s: string) returns (before: string)
    ensures s == before + LStrip(ops, s) && AllSpace(ops, before)
    ensures LStrip(ops, s) != "" ==> !ops.isSpace(LStrip(ops, s)[0])
  {
    before := "";
    if s != "" && ops.isSpace(s[0]) {
      before := LStripTrims(ops, s[1..]);
      before := [s[0]] + before;
    }
  }

  lemma SpaceSnoc(ops: PlaceText, s: string, c: char)
    requires AllSpace(ops, s) && ops.isSpace(c)
    ensures AllSpace(ops, s + [c])
  {
  }

  lemma {:induction false} RStripTrims(ops: PlaceText, s: string) returns (after: string)
    ensures s == RStrip(ops, s) + after && AllSpace(ops, after)
    ensures RStrip(ops, s) != "" ==> !ops.isSpace(RStrip(ops, s)[|RStrip(ops, s)| - 1])
  {
    after := "";
    if s != "" && ops.isSpace(Last(s)) {
      var front, last := Front(s), Last(s);
      var rest := RStripTrims(ops, front);
      after := rest + [last];
      assert RStrip(ops, s) == RStrip(ops, front);
      hide RStrip;
      SpaceSnoc(ops, rest, last);
      assert s == front + [last];
      assert RStrip(ops, front) + (rest + [last]) == (RStrip(ops, front) + rest) + [last];
    }
  }

  lemma StripTrims(ops: PlaceText, s: string)
    ensures IsTrimmed(ops, s, Strip(ops, s))
  {
    var before := LStripTrims(ops, s);
    var after := RStripTrims(ops, LStrip(ops, s));
    var t := Strip(ops, s);
    assert s == before + t + after;
    if t != "" {
      assert t[0] == LStrip(ops, s)[0];
    }
  }

  /** The pieces with a comma between any two. */
  function Joined(pieces: seq<string>): string {
    if pieces == [] then ""
    else if |pieces| == 1 then pieces[0]
    else pieces[0] + "," + Joined(pieces[1..])
  }

  lemma {:induction false} SplitJoins(piece: string, s: string)
    requires ',' !in piece
    ensures Joined(SplitFrom(piece, s)) == piece + s
    ensures forall p :: p in SplitFrom(piece, s) ==> ',' !in p
    decreases |s|
  {
    if s == "" {
      assert piece + s == piece;
    } else if s[0] == ',' {
      SplitJoins("", s[1..]);
      var rest := SplitFrom("", s[1..]);
      assert ([piece] + rest)[1..] == rest;
      assert s == "," + s[1..];
    } else {
      SplitJoins(piece + [s[0]], s[1..]);
      assert piece + s == piece + [s[0]] + s[1..];
    }
  }

  function StripEach(ops: PlaceText, pieces: seq<string>): seq<string> {
    seq(|pieces|, i requires 0 <= i < |pieces| => Strip(ops, pieces[i]))
  }

  function NonEmpty(): string -> bool {
    (s: string) => s != ""
  }

  lemma StripEachCons(ops: PlaceText, piece: string, rest: seq<string>)
    ensures StripEach(ops, [piece] + rest) == [Strip(ops, piece)] + StripEach(ops, rest)
  {
    hide Strip;
  }

  lemma NothingKept()
    ensures Filter(NonEmpty(), []) == []
  {
  }

  lemma {:induction false} StripAllFiltered(ops: PlaceText, pieces: seq<string>)
    ensures StripAll(ops, pieces) == Filter(NonEmpty(), StripEach(ops, pieces))
  {
    if pieces != [] {
      hide Strip, StripEach, Filter;
      var p, rest := Strip(ops, pieces[0]), pieces[1..];
      assert pieces == [pieces[0]] + rest;
      StripAllFiltered(ops, rest);
      StripEachCons(ops, pieces[0], rest);
      FilterConcat(NonEmpty(), [p], StripEach(ops, rest));
      FilterSnoc(NonEmpty(), [], p);
      assert [] + [p] == [p];
      NothingKept();
    } else {
      NothingKept();
    }
  }

  /** The parts of a name are its stretches between commas, trimmed, without the empty ones, in order. */
  lemma PartsMeaning(ops: PlaceText, name: string) returns (pieces: seq<string>, positions: seq<int>)
    ensures Joined(pieces) == name && pieces != [] && forall p :: p in pieces ==> ',' !in p
    ensures PicksAll(NonEmpty(), StripEach(ops, pieces), Parts(ops, name), positions)
    ensures forall p :: p in pieces ==> IsTrimmed(ops, p, Strip(ops, p))
  {
    hide PicksAll, IsTrimmed;
    pieces := Split(name);
    SplitJoins("", name);
    StripAllFiltered(ops, pieces);
    positions := FilterPicksAll(NonEmpty(), StripEach(ops, pieces));
    forall p | p in pieces ensures IsTrimmed(ops, p, Strip(ops, p)) {
      StripTrims(ops, p);
    }
  }
}

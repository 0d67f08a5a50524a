/** Clamping, scaling and percentile ranks against a cohort, in exact reals. */
module Normalization {
  import opened Containers

  function Clamp(value: real, lower: real, upper: real): real {
    var capped := if value <= upper then value else upper;
    if capped <= lower then lower else capped
  }

  /** Clamps to [0, 100]. */
  function Percentage(value: real): real {
    Clamp(value, 0.0, 100.0)
  }

  function Scale(value: real, floor: real, ceiling: real): real {
    if ceiling <= floor then 0.0 else Percentage((value - floor) / (ceiling - floor) * 100.0)
  }

  function InverseScale(value: real, floor: real, ceiling: real): real {
    Percentage(100.0 - Scale(value, floor, ceiling))
  }

  lemma ProductNonNegative(x: real, y: real)
    requires x >= 0.0 && y >= 0.0
    ensures x * y >= 0.0
  {
  }

  lemma FactorMonotone(x: real, y: real, factor: real)
    requires x <= y
    ensures factor >= 0.0 ==> x * factor <= y * factor
    ensures factor <= 0.0 ==> x * factor >= y * factor
  {
    var d := y - x;
    assert y * factor - x * factor == d * factor;
    if factor >= 0.0 {
      ProductNonNegative(d, factor);
    } else {
      ProductNonNegative(d, -factor);
      assert d * -factor == -(d * factor);
    }
  }

  lemma ProductMonotone(p: real, q: real, n: real)
    requires p < q && n > 0.0
    ensures p * n < q * n
  {
  }

  /** Dividing by a positive number keeps the order. */
  lemma RatioMonotone(x: real, y: real, n: real)
    requires n > 0.0
    ensures x <= y <==> x / n <= y / n
  {
    var p, q := x / n, y / n;
    assert p * n == x && q * n == y;
    if p < q {
      ProductMonotone(p, q, n);
    } else if q < p {
      ProductMonotone(q, p, n);
    }
  }

  lemma SelfRatio(n: real)
    requires n > 0.0
    ensures n / n == 1.0
  {
    var q := n / n;
    assert q * n == n;
    if q < 1.0 {
      ProductMonotone(q, 1.0, n);
    } else if q > 1.0 {
      ProductMonotone(1.0, q, n);
    }
  }

  /** Scaling grows with the value and its inverse falls, they add up to 100 on a proper range,
      and the ends of the range are the first values that reach 0 and 100. */
  lemma ScaleMeaning(x: real, y: real, floor: real, ceiling: real)
    requires x <= y
    ensures 0.0 <= Scale(x, floor, ceiling) <= Scale(y, floor, ceiling) <= 100.0
    ensures InverseScale(x, floor, ceiling) >= InverseScale(y, floor, ceiling)
    ensures Scale(x, floor, ceiling) + InverseScale(x, floor, ceiling) == 100.0
    ensures floor < ceiling ==> (Scale(x, floor, ceiling) == 0.0 <==> x <= floor)
    ensures floor < ceiling ==> (Scale(x, floor, ceiling) == 100.0 <==> x >= ceiling)
    ensures floor >= ceiling ==> Scale(x, floor, ceiling) == 0.0
  {
    if floor < ceiling {
      var n := ceiling - floor;
      RatioMonotone(x - floor, y - floor, n);
      RatioMonotone(x - floor, 0.0, n);
      RatioMonotone(n, x - floor, n);
      SelfRatio(n);
      assert 0.0 / n == 0.0;
    }
  }

  /** Inside the range scaling is linear. */
  lemma ScaleIsLinear(value: real, floor: real, ceiling: real)
    requires floor < ceiling && floor <= value <= ceiling
    ensures Scale(value, floor, ceiling) * (ceiling - floor) == (value - floor) * 100.0
  {
    ScaleMeaning(value, value, floor, ceiling);
    var n := ceiling - floor;
    var share := (value - floor) / n;
    assert share * n == value - floor;
    RatioMonotone(0.0, value - floor, n);
    RatioMonotone(value - floor, n, n);
    SelfRatio(n);
    assert 0.0 / n == 0.0;
    assert Scale(value, floor, ceiling) == share * 100.0;
    assert share * 100.0 * n == share * n * 100.0;
  }

  // ----- Sorting and bisection -------------------------------------------------------------

  ghost predicate IsSorted(xs: seq<real>) {
    forall i, j :: 0 <= i < j < |xs| ==> xs[i] <= xs[j]
  }

  /** How many values are at most bound. */
  function CountAtMost(xs: seq<real>, bound: real): (n: nat)
    ensures n <= |xs|
  {
    if xs == [] then 0
    else CountAtMost(Front(xs), bound) + if Last(xs) <= bound then 1 else 0
  }

  lemma InsertedBelow(xs: seq<real>, x: real, shorter: seq<real>)
    requires xs != [] && IsSorted(xs) && x <= Last(xs)
    requires IsSorted(shorter) && IsPermutation(shorter, Front(xs) + [x])
    ensures IsSorted(shorter + [Last(xs)])
    ensures IsPermutation(shorter + [Last(xs)], xs + [x])
  {
    PermutationLength(shorter, Front(xs) + [x]);
    forall k | 0 <= k < |shorter| ensures shorter[k] <= Last(xs) {
      assert shorter[k] in Front(xs) + [x];
    }
    assert xs + [x] == Front(xs) + [Last(xs)] + [x];
  }

  function Inserted(xs: seq<real>, x: real): (s: seq<real>)
    requires IsSorted(xs)
    ensures IsSorted(s) && IsPermutation(s, xs + [x]) && |s| == |xs| + 1
  {
    if xs == [] || Last(xs) <= x then xs + [x]
    else
      InsertedBelow(xs, x, Inserted(Front(xs), x));
      Inserted(Front(xs), x) + [Last(xs)]
  }

  function Sorted(xs: seq<real>): (s: seq<real>)
    ensures IsSorted(s) && IsPermutation(s, xs) && |s| == |xs|
  {
    if xs == [] then []
    else
      assert xs == Front(xs) + [Last(xs)];
      Inserted(Sorted(Front(xs)), Last(xs))
  }

  /** Halves the range until the first position whose value exceeds bound. */
  function BisectRight(xs: seq<real>, bound: real, lo: nat, hi: nat): (k: nat)
    requires lo <= hi <= |xs| && IsSorted(xs)
    requires forall i :: 0 <= i < lo ==> xs[i] <= bound
    requires forall i :: hi <= i < |xs| ==> bound < xs[i]
    ensures k <= |xs|
    ensures forall i :: 0 <= i < |xs| ==> (xs[i] <= bound <==> i < k)
    decreases hi - lo
  {
    if lo == hi then lo
    else
      var mid := (lo + hi) / 2;
      if bound < xs[mid] then BisectRight(xs, bound, lo, mid) else BisectRight(xs, bound, mid + 1, hi)
  }

  lemma {:induction false} CountConcat(xs: seq<real>, ys: seq<real>, bound: real)
    ensures CountAtMost(xs + ys, bound) == CountAtMost(xs, bound) + CountAtMost(ys, bound)
  {
    if ys == [] {
      assert xs + ys == xs;
    } else {
      assert Front(xs + ys) == xs + Front(ys) && Last(xs + ys) == Last(ys);
      CountConcat(xs, Front(ys), bound);
    }
  }

  lemma {:induction false} CountPermutation(xs: seq<real>, ys: seq<real>, bound: real)
    requires IsPermutation(xs, ys)
    ensures CountAtMost(xs, bound) == CountAtMost(ys, bound)
  {
    PermutationLength(xs, ys);
    if xs != [] {
      var i := SplitPermutation(xs, ys);
      CountPermutation(Front(xs), ys[..i] + ys[i + 1..], bound);
      CountConcat(ys[..i], ys[i + 1..], bound);
      CountConcat(ys[..i] + [Last(xs)], ys[i + 1..], bound);
      CountConcat(ys[..i], [Last(xs)], bound);
    }
  }

  lemma {:induction false} CountFull(xs: seq<real>, bound: real)
    ensures CountAtMost(xs, bound) == |xs| <==> forall i :: 0 <= i < |xs| ==> xs[i] <= bound
  {
    if xs != [] {
      var rest := Front(xs);
      CountFull(rest, bound);
      assert forall i :: 0 <= i < |rest| ==> rest[i] == xs[i];
    }
  }

  lemma {:induction false} CountNone(xs: seq<real>, bound: real)
    requires forall i :: 0 <= i < |xs| ==> bound < xs[i]
    ensures CountAtMost(xs, bound) == 0
  {
    if xs != [] {
      CountNone(Front(xs), bound);
    }
  }

  /** Bisection in the sorted values counts the values that are at most bound. */
  lemma BisectCounts(xs: seq<real>, bound: real)
    ensures BisectRight(Sorted(xs), bound, 0, |xs|) == CountAtMost(xs, bound)
  {
    hide CountAtMost, Sorted, BisectRight;
    var s := Sorted(xs);
    var k := BisectRight(s, bound, 0, |xs|);
    assert s == s[..k] + s[k..];
    CountConcat(s[..k], s[k..], bound);
    CountFull(s[..k], bound);
    CountNone(s[k..], bound);
    CountPermutation(s, xs, bound);
  }

  lemma {:induction false} CountMonotone(xs: seq<real>, lower: real, upper: real)
    requires lower <= upper
    ensures CountAtMost(xs, lower) <= CountAtMost(xs, upper)
  {
    if xs != [] {
      CountMonotone(Front(xs), lower, upper);
    }
  }

  // ----- Percentile rank -------------------------------------------------------------------

  function PercentileRank(value: real, cohort: seq<real>): real {
    var series := Sorted(cohort);
    if series == [] then 50.0
    else if |series| == 1 then if value >= series[0] then 100.0 else 0.0
    else
      var idx := BisectRight(series, value, 0, |series|) - 1;
      var capped := if idx <= |series| - 1 then idx else |series| - 1;
      (if capped <= 0 then 0 else capped) as real / (|series| - 1) as real * 100.0
  }

  /** The share of the other cohort members that a value with count members at or below it beats. */
  function ShareBelow(count: nat, size: nat): real
    requires size > 1
  {
    (if count == 0 then 0 else count - 1) as real / (size - 1) as real * 100.0
  }

  /** The rank needs no sorting: it only depends on how many values are at most this one. */
  lemma PercentileCounts(value: real, cohort: seq<real>)
    ensures PercentileRank(value, cohort) ==
      if cohort == [] then 50.0
      else if |cohort| == 1 then if cohort[0] <= value then 100.0 else 0.0
      else ShareBelow(CountAtMost(cohort, value), |cohort|)
  {
    hide CountAtMost, Sorted, BisectRight;
    BisectCounts(cohort, value);
    if |cohort| == 1 {
      PermutationLength(Sorted(cohort), cohort);
      assert Sorted(cohort)[0] in cohort;
    }
  }

  lemma ShareMonotone(m: nat, n: nat, size: nat)
    requires m <= n <= size && size > 1
    ensures 0.0 <= ShareBelow(m, size) <= ShareBelow(n, size) <= 100.0
    ensures n == size ==> ShareBelow(n, size) == 100.0
    ensures n < size ==> ShareBelow(n, size) < 100.0
  {
    var below := (size - 1) as real;
    var x, y := (if m == 0 then 0 else m - 1) as real, (if n == 0 then 0 else n - 1) as real;
    RatioMonotone(0.0, x, below);
    RatioMonotone(x, y, below);
    RatioMonotone(y, below, below);
    SelfRatio(below);
    RatioMonotone(below, y, below);
  }

  /** A rank is a percentage, grows with the value, and for a cohort of at least one is full
      exactly when no member of the cohort is larger. */
  lemma PercentileMonotone(lower: real, upper: real, cohort: seq<real>)
    requires lower <= upper
    ensures 0.0 <= PercentileRank(lower, cohort) <= PercentileRank(upper, cohort) <= 100.0
    ensures cohort != [] ==>
        (PercentileRank(upper, cohort) == 100.0 <==> forall i :: 0 <= i < |cohort| ==> cohort[i] <= upper)
  {
    hide PercentileRank, ShareBelow;
    PercentileCounts(lower, cohort);
    PercentileCounts(upper, cohort);
    CountMonotone(cohort, lower, upper);
    CountFull(cohort, upper);
    if |cohort| > 1 {
      ShareMonotone(CountAtMost(cohort, lower), CountAtMost(cohort, upper), |cohort|);
    } else if |cohort| == 1 {
      assert cohort[0] in cohort;
    }
  }

  /** The order of the cohort does not matter. */
  lemma PercentileOrderFree(value: real, cohort: seq<real>, reordered: seq<real>)
    requires IsPermutation(cohort, reordered)
    ensures PercentileRank(value, cohort) == PercentileRank(value, reordered)
  {
    hide PercentileRank, ShareBelow;
    PermutationLength(cohort, reordered);
    CountPermutation(cohort, reordered, value);
    PercentileCounts(value, cohort);
    PercentileCounts(value, reordered);
    if |cohort| == 1 {
      assert cohort[0] in reordered;
    }
  }

  lemma CountAround(xs: seq<real>, i: nat, bound: real)
    requires i < |xs|
    ensures CountAtMost(xs, bound) ==
      CountAtMost(xs[..i] + xs[i + 1..], bound) + if xs[i] <= bound then 1 else 0
  {
    assert xs == xs[..i] + [xs[i]] + xs[i + 1..];
    CountConcat(xs[..i] + [xs[i]], xs[i + 1..], bound);
    CountConcat(xs[..i], [xs[i]], bound);
    CountConcat(xs[..i], xs[i + 1..], bound);
  }

  /** When one member of the cohort grows, its own rank does not fall, and nobody else's rises. */
  lemma RaisingOneMember(cohort: seq<real>, i: nat, raised: real, other: real)
    requires i < |cohort| && cohort[i] <= raised
    ensures PercentileRank(cohort[i], cohort) <= PercentileRank(raised, cohort[i := raised])
    ensures PercentileRank(other, cohort) >= PercentileRank(other, cohort[i := raised])
  {
    hide PercentileRank, ShareBelow;
    var after := cohort[i := raised];
    var rest := cohort[..i] + cohort[i + 1..];
    assert after[..i] + after[i + 1..] == rest;
    CountAround(cohort, i, cohort[i]);
    CountAround(after, i, raised);
    CountAround(cohort, i, other);
    CountAround(after, i, other);
    CountMonotone(rest, cohort[i], raised);
    PercentileCounts(cohort[i], cohort);
    PercentileCounts(raised, after);
    PercentileCounts(other, cohort);
    PercentileCounts(other, after);
    if |cohort| > 1 {
      ShareMonotone(CountAtMost(cohort, cohort[i]), CountAtMost(after, raised), |cohort|);
      ShareMonotone(CountAtMost(after, other), CountAtMost(cohort, other), |cohort|);
    }
  }
}

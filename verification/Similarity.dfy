/** Cosine similarity of feature vectors and the expand-and-conquer projection it feeds. */
module Similarity {
  import opened Containers
  import opened Normalization

  // ----- Vectors ---------------------------------------------------------------------------

  /** Strings compare character by character, a prefix coming first. */
  predicate StringLeq(a: string, b: string) {
    a == "" || (b != "" && (a[0] < b[0] || (a[0] == b[0] && StringLeq(a[1..], b[1..]))))
  }

  lemma {:induction false} StringTotal(a: string, b: string)
    ensures StringLeq(a, b) || StringLeq(b, a)
    ensures StringLeq(a, b) && StringLeq(b, a) ==> a == b
  {
    if a != "" && b != "" {
      StringTotal(a[1..], b[1..]);
      assert a == [a[0]] + a[1..] && b == [b[0]] + b[1..];
    }
  }

  lemma {:induction false} StringTransitive(a: string, b: string, c: string)
    requires StringLeq(a, b) && StringLeq(b, c)
    ensures StringLeq(a, c)
  {
    if a != "" && a[0] == b[0] && b[0] == c[0] {
      StringTransitive(a[1..], b[1..], c[1..]);
    }
  }

  ghost predicate SortedNames(names: seq<string>) {
    forall i, j :: 0 <= i < j < |names| ==> StringLeq(names[i], names[j])
  }

  function InsertName(names: seq<string>, x: string): seq<string> {
    if names == [] || StringLeq(Last(names), x) then names + [x]
    else InsertName(Front(names), x) + [Last(names)]
  }

  function SortNames(names: seq<string>): seq<string> {
    if names == [] then [] else InsertName(SortNames(Front(names)), Last(names))
  }

  lemma {:induction false} InsertNameSorts(names: seq<string>, x: string)
    requires SortedNames(names)
    ensures SortedNames(InsertName(names, x)) && IsPermutation(InsertName(names, x), names + [x])
  {
    hide StringLeq;
    if names != [] {
      var front, last := Front(names), Last(names);
      assert names == front + [last];
      if StringLeq(last, x) {
        forall i | 0 <= i < |names| ensures StringLeq(names[i], x) {
          if i < |front| {
            StringTransitive(names[i], last, x);
          }
        }
      } else {
        StringTotal(last, x);
        InsertNameSorts(front, x);
        var inserted := InsertName(front, x);
        PermutationLength(inserted, front + [x]);
        forall i | 0 <= i < |inserted| ensures StringLeq(inserted[i], last) {
          assert inserted[i] in front + [x];
        }
      }
    }
  }

  /** Sorting gives a sorted permutation. */
  lemma {:induction false} SortNamesCorrect(names: seq<string>)
    ensures SortedNames(SortNames(names)) && IsPermutation(SortNames(names), names)
  {
    if names != [] {
      SortNamesCorrect(Front(names));
      InsertNameSorts(SortNames(Front(names)), Last(names));
      assert names == Front(names) + [Last(names)];
    }
  }

  lemma LastIsGreatest(a: seq<string>, x: string)
    requires SortedNames(a) && x in a
    ensures StringLeq(x, Last(a))
  {
    var i :| 0 <= i < |a| && a[i] == x;
    StringTotal(x, x);
  }

  lemma SameLast(a: seq<string>, b: seq<string>)
    requires SortedNames(a) && SortedNames(b) && IsPermutation(a, b) && a != [] && b != []
    ensures Last(a) == Last(b)
  {
    hide StringLeq, SortedNames;
    PermutationLength(a, b);
    assert Last(a) in b && Last(b) in a;
    LastIsGreatest(a, Last(b));
    LastIsGreatest(b, Last(a));
    StringTotal(Last(a), Last(b));
  }

  lemma SameFronts(a: seq<string>, b: seq<string>, x: string)
    requires IsPermutation(a + [x], b + [x])
    ensures IsPermutation(a, b)
  {
    assert multiset(a) == multiset(a + [x]) - multiset{x};
    assert multiset(b) == multiset(b + [x]) - multiset{x};
  }

  lemma SortedFront(a: seq<string>)
    requires a != [] && SortedNames(a)
    ensures SortedNames(Front(a))
  {
  }

  /** There is only one way to sort. */
  lemma {:induction false} SortedUnique(a: seq<string>, b: seq<string>)
    requires SortedNames(a) && SortedNames(b) && IsPermutation(a, b)
    ensures a == b
  {
    PermutationLength(a, b);
    if a != [] {
      SameLast(a, b);
      assert a == Front(a) + [Last(a)] && b == Front(b) + [Last(b)];
      SameFronts(Front(a), Front(b), Last(a));
      hide SortedNames, IsPermutation;
      SortedFront(a);
      SortedFront(b);
      SortedUnique(Front(a), Front(b));
    }
  }

  /** A feature vector as it is stored: missing, a list, or an object with a number per feature. */
  datatype RawVector =
    | NoVector
    | Listed(values: seq<Option<real>>)
    | Named(features: Dict<string, Option<real>>)

  lemma SortedKeysKnown(features: Dict<string, Option<real>>)
    requires features.Valid()
    ensures forall i :: 0 <= i < |SortNames(features.keys)| ==> SortNames(features.keys)[i] in features.vals
  {
    SortNamesCorrect(features.keys);
    PermutationLength(SortNames(features.keys), features.keys);
    forall i | 0 <= i < |SortNames(features.keys)| ensures SortNames(features.keys)[i] in features.vals {
      assert SortNames(features.keys)[i] in features.keys;
    }
  }

  /** The values in the order in which they are read; features are read by name. */
  function RawValues(raw: RawVector): seq<Option<real>>
    requires raw.Named? ==> raw.features.Valid()
  {
    match raw
    case NoVector => []
    case Listed(values) => values
    case Named(features) =>
      var names := SortNames(features.keys);
      SortedKeysKnown(features);
      seq(|names|, i requires 0 <= i < |names| => features.vals[names[i]])
  }

  /** The order in which the features of an object are stored does not matter. */
  lemma FeatureOrderIrrelevant(a: Dict<string, Option<real>>, b: Dict<string, Option<real>>)
    requires a.Valid() && b.Valid() && a.vals == b.vals
    ensures RawValues(Named(a)) == RawValues(Named(b))
  {
    hide StringLeq, SortNames;
    SameElements(a.keys, b.keys);
    SortNamesCorrect(a.keys);
    SortNamesCorrect(b.keys);
    SortedUnique(SortNames(a.keys), SortNames(b.keys));
  }

  /** The finite numbers of a raw feature vector; one unreadable value spoils the vector, and an
      empty vector counts as none. */
  method FeatureVectorValues(raw: RawVector) returns (vector: Option<seq<real>>)
    requires raw.Named? ==> raw.features.Valid()
    ensures vector.Some? <==> RawValues(raw) != [] && None !in RawValues(raw)
    ensures vector.Some? ==> |vector.value| == |RawValues(raw)|
    ensures vector.Some? ==> forall i :: 0 <= i < |RawValues(raw)| ==> RawValues(raw)[i] == Some(vector.value[i])
  {
    hide SortNames;
    var stored := RawValues(raw);
    var values: seq<real> := [];
    for i := 0 to |stored|
      invariant |values| == i
      invariant forall j :: 0 <= j < i ==> stored[j] == Some(values[j])
    {
      if stored[i].None? {
        assert stored[i] in stored;
        return None;
      }
      values := values + [stored[i].value];
    }
    vector := if values == [] then None else Some(values);
  }

  function Dot(a: seq<real>, b: seq<real>): real
    requires |a| == |b|
  {
    if a == [] then 0.0 else Dot(Front(a), Front(b)) + Last(a) * Last(b)
  }

  method DotProduct(a: seq<real>, b: seq<real>) returns (dot: real)
    requires |a| == |b|
    ensures dot == Dot(a, b)
  {
    dot := 0.0;
    for i := 0 to |a|
      invariant dot == Dot(a[..i], b[..i])
    {
      assert Front(a[..i + 1]) == a[..i] && Front(b[..i + 1]) == b[..i];
      dot := dot + a[i] * b[i];
    }
    assert a[..|a|] == a && b[..|a|] == b;
  }

  // ----- Cauchy-Schwarz --------------------------------------------------------------------

  lemma SquareNonNegative(x: real)
    ensures x * x >= 0.0
  {
    if x < 0.0 {
      assert x * x == (-x) * (-x);
    }
  }

  lemma {:induction false} NormNonNegative(a: seq<real>)
    ensures Dot(a, a) >= 0.0
  {
    if a != [] {
      NormNonNegative(Front(a));
      SquareNonNegative(Last(a));
    }
  }

  lemma StrictlyPositive(x: real, y: real)
    requires x > 0.0 && y > 0.0
    ensures x * y > 0.0
  {
  }

  /** Comparing by squares. */
  lemma BelowBySquares(p: real, q: real)
    requires p >= 0.0 && q * q <= p * p
    ensures -p <= q <= p
  {
    if q > p {
      assert q * q - p * p == (q - p) * (q + p);
      StrictlyPositive(q - p, q + p);
    } else if q < -p {
      assert q * q - p * p == (-q - p) * (-q + p);
      StrictlyPositive(-q - p, -q + p);
    }
  }

  lemma Regroup(d: real, x: real, y: real)
    ensures (2.0 * d * x * y) * (2.0 * d * x * y) == 4.0 * ((d * d) * ((x * x) * (y * y)))
  {
    var e := d * x * y;
    assert 2.0 * d * x * y == 2.0 * e;
    assert e * e == (d * d) * ((x * x) * (y * y)) by {
      assert e == d * (x * y);
      assert (d * (x * y)) * (d * (x * y)) == (d * d) * ((x * y) * (x * y));
      assert (x * y) * (x * y) == (x * x) * (y * y);
    }
  }

  lemma RegroupProduct(a: real, b: real, s: real, t: real)
    ensures (a * t) * (b * s) == (a * b) * (s * t)
  {
  }

  lemma Polarize(u: real, v: real)
    ensures (u + v) * (u + v) == (u - v) * (u - v) + 4.0 * (u * v)
  {
  }

  /** The cross term of one more coordinate: 2dxy <= a y^2 + b x^2 whenever d^2 <= ab. */
  lemma CrossTerm(a: real, b: real, d: real, x: real, y: real)
    requires a >= 0.0 && b >= 0.0 && d * d <= a * b
    ensures 2.0 * d * x * y <= a * (y * y) + b * (x * x)
  {
    var u, v := a * (y * y), b * (x * x);
    var q := 2.0 * d * x * y;
    SquareNonNegative(x);
    SquareNonNegative(y);
    ProductNonNegative(a, y * y);
    ProductNonNegative(b, x * x);
    var w := (x * x) * (y * y);
    ProductNonNegative(x * x, y * y);
    assert q * q == 4.0 * ((d * d) * w) by { Regroup(d, x, y); }
    assert u * v == (a * b) * w by { RegroupProduct(a, b, x * x, y * y); }
    FactorMonotone(d * d, a * b, w);
    SquareNonNegative(u - v);
    assert (u + v) * (u + v) == (u - v) * (u - v) + 4.0 * (u * v) by { Polarize(u, v); }
    BelowBySquares(u + v, q);
  }

  lemma ExpandSquare(d: real, x: real, y: real)
    ensures (d + x * y) * (d + x * y) == d * d + 2.0 * d * x * y + (x * x) * (y * y)
  {
    var p := x * y;
    assert (d + p) * (d + p) == d * d + 2.0 * (d * p) + p * p;
    assert d * p == d * x * y;
    assert p * p == (x * x) * (y * y);
  }

  lemma OneMoreCoordinate(a: real, b: real, d: real, x: real, y: real)
    requires a >= 0.0 && b >= 0.0 && d * d <= a * b
    ensures (d + x * y) * (d + x * y) <= (a + x * x) * (b + y * y)
  {
    CrossTerm(a, b, d, x, y);
    assert (d + x * y) * (d + x * y) == d * d + 2.0 * d * x * y + (x * x) * (y * y) by { ExpandSquare(d, x, y); }
    assert (a + x * x) * (b + y * y) == a * b + a * (y * y) + b * (x * x) + (x * x) * (y * y);
  }

  /** The dot product squared never exceeds the product of the squared norms. */
  lemma {:induction false} CauchySchwarz(a: seq<real>, b: seq<real>)
    requires |a| == |b|
    ensures Dot(a, b) * Dot(a, b) <= Dot(a, a) * Dot(b, b)
  {
    if a != [] {
      var a', b' := Front(a), Front(b);
      CauchySchwarz(a', b');
      NormNonNegative(a');
      NormNonNegative(b');
      OneMoreCoordinate(Dot(a', a'), Dot(b', b'), Dot(a', b'), Last(a), Last(b));
    }
  }

  // ----- Cosine similarity -----------------------------------------------------------------

  /** n is the square root of the sum of squares of a. */
  ghost predicate IsNorm(n: real, a: seq<real>) {
    n >= 0.0 && n * n == Dot(a, a)
  }

  lemma NonZeroProduct(x: real, y: real)
    requires x != 0.0 && y != 0.0
    ensures x * y != 0.0
  {
  }

  function Cosine(a: seq<real>, b: seq<real>, aNorm: real, bNorm: real): Option<real> {
    if a == [] || b == [] || |a| != |b| || aNorm == 0.0 || bNorm == 0.0 then None
    else
      NonZeroProduct(aNorm, bNorm);
      Some(Dot(a, b) / (aNorm * bNorm))
  }

  // ----- What the similarity is ------------------------------------------------------------

  ghost function Positions(n: nat): seq<int> {
    seq(n, i requires 0 <= i < n => i)
  }

  /** The product of the coordinates at a position. */
  ghost function Products(a: seq<real>, b: seq<real>): int -> real {
    i => if 0 <= i < |a| && i < |b| then a[i] * b[i] else 0.0
  }

  lemma {:induction false} DotUpTo(a: seq<real>, b: seq<real>, n: nat)
    requires |a| == |b| && n <= |a|
    ensures Dot(a[..n], b[..n]) == Sum(Products(a, b), Positions(n))
  {
    if n > 0 {
      DotUpTo(a, b, n - 1);
      assert Front(a[..n]) == a[..n - 1] && Front(b[..n]) == b[..n - 1];
      assert Front(Positions(n)) == Positions(n - 1);
    }
  }

  lemma DotMeaning(a: seq<real>, b: seq<real>)
    requires |a| == |b|
    ensures Dot(a, b) == Sum(Products(a, b), Positions(|a|))
  {
    DotUpTo(a, b, |a|);
    assert a[..|a|] == a && b[..|a|] == b;
  }

  ghost predicate AllZero(a: seq<real>) {
    forall i :: 0 <= i < |a| ==> a[i] == 0.0
  }

  lemma ProductZero(x: real, y: real, product: real)
    requires product == x * y
    ensures product == 0.0 <==> x == 0.0 || y == 0.0
  {
  }

  lemma {:induction false} NormZero(a: seq<real>)
    ensures Dot(a, a) == 0.0 <==> AllZero(a)
  {
    if a != [] {
      var front, last := Front(a), Last(a);
      NormZero(front);
      NormNonNegative(front);
      SquareNonNegative(last);
      ProductZero(last, last, last * last);
      assert a[|front|] == last;
      assert forall i :: 0 <= i < |front| ==> front[i] == a[i];
    }
  }

  /** There is a similarity exactly for two vectors of one length of which neither is empty or zero, and
      times the norms it is the sum of the products of the coordinates. */
  ghost predicate IsSimilarity(r: Option<real>, a: seq<real>, b: seq<real>, aNorm: real, bNorm: real) {
    && (r.Some? <==> a != [] && |a| == |b| && !AllZero(a) && !AllZero(b))
    && (r.Some? ==> r.value * (aNorm * bNorm) == Sum(Products(a, b), Positions(|a|)))
  }

  lemma NormIsZero(n: real, a: seq<real>)
    requires IsNorm(n, a)
    ensures n == 0.0 <==> AllZero(a)
  {
    hide Dot, AllZero;
    NormZero(a);
    ProductZero(n, n, Dot(a, a));
  }

  lemma CosineMeaning(a: seq<real>, b: seq<real>, aNorm: real, bNorm: real)
    requires IsNorm(aNorm, a) && IsNorm(bNorm, b)
    ensures IsSimilarity(Cosine(a, b, aNorm, bNorm), a, b, aNorm, bNorm)
  {
    hide Dot, AllZero, Products, Positions, Sum;
    NormIsZero(aNorm, a);
    NormIsZero(bNorm, b);
    if |a| == |b| {
      DotMeaning(a, b);
      if aNorm != 0.0 && bNorm != 0.0 {
        NonZeroProduct(aNorm, bNorm);
      }
    }
  }

  method CosineSimilarity(a: seq<real>, b: seq<real>, aNorm: real, bNorm: real) returns (r: Option<real>)
    requires IsNorm(aNorm, a) && IsNorm(bNorm, b)
    ensures r == Cosine(a, b, aNorm, bNorm)
    ensures IsSimilarity(r, a, b, aNorm, bNorm)
  {
    CosineMeaning(a, b, aNorm, bNorm);
    hide IsSimilarity;
    if a == [] || b == [] || |a| != |b| { return None; }
    var dot := DotProduct(a, b);
    if aNorm == 0.0 || bNorm == 0.0 { return None; }
    NonZeroProduct(aNorm, bNorm);
    r := Some(dot / (aNorm * bNorm));
  }

  lemma QuotientRange(d: real, n: real)
    requires n > 0.0 && -n <= d <= n
    ensures -1.0 <= d / n <= 1.0
  {
    var q := d / n;
    assert q * n == d;
    if q > 1.0 {
      StrictlyPositive(q - 1.0, n);
    } else if q < -1.0 {
      StrictlyPositive(-1.0 - q, n);
    }
  }

  /** The similarity of any two vectors lies in [-1, 1]. */
  lemma CosineRange(a: seq<real>, b: seq<real>, aNorm: real, bNorm: real)
    requires IsNorm(aNorm, a) && IsNorm(bNorm, b) && Cosine(a, b, aNorm, bNorm).Some?
    ensures -1.0 <= Cosine(a, b, aNorm, bNorm).value <= 1.0
  {
    hide Dot;
    var n := aNorm * bNorm;
    StrictlyPositive(aNorm, bNorm);
    CauchySchwarz(a, b);
    assert n * n == (aNorm * aNorm) * (bNorm * bNorm);
    BelowBySquares(n, Dot(a, b));
    QuotientRange(Dot(a, b), n);
  }

  lemma {:induction false} DotSymmetric(a: seq<real>, b: seq<real>)
    requires |a| == |b|
    ensures Dot(a, b) == Dot(b, a)
  {
    if a != [] {
      DotSymmetric(Front(a), Front(b));
    }
  }

  lemma SelfQuotient(x: real, y: real, n: real)
    requires x > 0.0 && y > 0.0 && n == x * y
    ensures n > 0.0 && n / n == 1.0
  {
  }

  /** Similarity is symmetric, and a vector is fully similar to itself. */
  lemma CosineSymmetric(a: seq<real>, b: seq<real>, aNorm: real, bNorm: real)
    ensures Cosine(a, b, aNorm, bNorm) == Cosine(b, a, bNorm, aNorm)
    ensures IsNorm(aNorm, a) && a != [] && aNorm != 0.0 ==> Cosine(a, a, aNorm, aNorm) == Some(1.0)
  {
    hide Dot;
    if |a| == |b| {
      DotSymmetric(a, b);
    }
    if IsNorm(aNorm, a) && aNorm != 0.0 {
      SelfQuotient(aNorm, aNorm, Dot(a, a));
    }
  }

  // ----- Only the direction counts ---------------------------------------------------------

  function Scaled(k: real, a: seq<real>): (s: seq<real>)
    ensures |s| == |a|
  {
    seq(|a|, i requires 0 <= i < |a| => k * a[i])
  }

  lemma ScaledFront(k: real, a: seq<real>)
    requires a != []
    ensures Scaled(k, a) != [] && Last(Scaled(k, a)) == k * Last(a)
    ensures Front(Scaled(k, a)) == Scaled(k, Front(a))
  {
    var x, y := Front(Scaled(k, a)), Scaled(k, Front(a));
    forall i | 0 <= i < |x| ensures x[i] == y[i] {
      assert x[i] == k * a[i] && Front(a)[i] == a[i];
    }
  }

  lemma {:induction false} DotScaled(k: real, a: seq<real>, b: seq<real>)
    requires |a| == |b|
    ensures Dot(Scaled(k, a), b) == k * Dot(a, b)
  {
    if a != [] {
      ScaledFront(k, a);
      DotScaled(k, Front(a), Front(b));
      var x, y, d := Last(a), Last(b), Dot(Front(a), Front(b));
      assert (k * x) * y == k * (x * y);
      assert k * (d + x * y) == k * d + k * (x * y);
    }
  }

  lemma NormScaled(k: real, a: seq<real>, n: real)
    requires IsNorm(n, a)
    ensures IsNorm(if k >= 0.0 then k * n else -k * n, Scaled(k, a))
  {
    hide Dot;
    DotScaled(k, a, Scaled(k, a));
    DotSymmetric(a, Scaled(k, a));
    DotScaled(k, a, a);
    var d, m := Dot(a, a), if k >= 0.0 then k * n else -k * n;
    assert m * m == (k * k) * (n * n);
    assert k * (k * d) == (k * k) * d;
    ProductNonNegative(if k >= 0.0 then k else -k, n);
  }

  lemma CancelFactor(q: real, n: real)
    requires n != 0.0
    ensures (q * n) / n == q
  {
  }

  lemma QuotientScaled(k: real, d: real, n: real, d': real, n': real)
    requires k != 0.0 && n != 0.0 && d' == k * d && n' == k * n
    ensures n' != 0.0 && d' / n' == d / n
  {
    NonZeroProduct(k, n);
    var q := d / n;
    assert q * n == d;
    assert d' == q * n';
    CancelFactor(q, n');
  }

  /** Whether there is a cosine, and the quotient it is, for named parts. */
  lemma CosineOf(a: seq<real>, b: seq<real>, aNorm: real, bNorm: real, d: real, n: real)
    requires |a| == |b| ==> d == Dot(a, b)
    requires n == aNorm * bNorm
    ensures Cosine(a, b, aNorm, bNorm).Some? <==> a != [] && |a| == |b| && aNorm != 0.0 && bNorm != 0.0
    ensures Cosine(a, b, aNorm, bNorm).Some? ==> n != 0.0 && Cosine(a, b, aNorm, bNorm).value == d / n
  {
    hide Dot;
    ProductZero(aNorm, bNorm, n);
  }

  lemma TurnedQuotient(sign: real, d: real, n: real)
    requires n != 0.0
    ensures (sign * d) / n == sign * (d / n)
  {
    var q := d / n;
    assert q * n == d;
    assert sign * d == (sign * q) * n;
    CancelFactor(sign * q, n);
  }

  /** The cosine with a stretched vector, by a factor of either sign whose size scales the norm. */
  lemma CosineStretched(a: seq<real>, b: seq<real>, aNorm: real, bNorm: real, k: real, size: real, sign: real)
    requires size > 0.0 && k == sign * size && sign * sign == 1.0
    ensures Cosine(a, b, aNorm, bNorm).Some? <==> Cosine(Scaled(k, a), b, size * aNorm, bNorm).Some?
    ensures Cosine(a, b, aNorm, bNorm).Some? ==>
      Cosine(Scaled(k, a), b, size * aNorm, bNorm).value == sign * Cosine(a, b, aNorm, bNorm).value
  {
    hide Dot, Scaled, Cosine;
    if |a| == |b| {
      var d, n := Dot(a, b), aNorm * bNorm;
      var norm, d' := size * aNorm, k * d;
      var n' := norm * bNorm;
      DotScaled(k, a, b);
      ProductZero(size, aNorm, norm);
      CosineOf(a, b, aNorm, bNorm, d, n);
      CosineOf(Scaled(k, a), b, norm, bNorm, d', n');
      if Cosine(a, b, aNorm, bNorm).Some? {
        var turned := sign * d;
        assert n' == size * n && d' == size * turned;
        QuotientScaled(size, turned, n, d', n');
        TurnedQuotient(sign, d, n);
      }
    } else {
      CosineOf(a, b, aNorm, bNorm, 0.0, aNorm * bNorm);
      CosineOf(Scaled(k, a), b, size * aNorm, bNorm, 0.0, size * aNorm * bNorm);
    }
  }

  /** Stretching a vector does not change its similarities; turning it around negates them. */
  lemma CosineScaled(a: seq<real>, b: seq<real>, aNorm: real, bNorm: real, k: real)
    requires IsNorm(aNorm, a) && IsNorm(bNorm, b) && k > 0.0
    ensures IsNorm(k * aNorm, Scaled(k, a)) && IsNorm(k * aNorm, Scaled(-k, a))
    ensures Cosine(Scaled(k, a), b, k * aNorm, bNorm) == Cosine(a, b, aNorm, bNorm)
    ensures Cosine(Scaled(-k, a), b, k * aNorm, bNorm).Some? <==> Cosine(a, b, aNorm, bNorm).Some?
    ensures Cosine(a, b, aNorm, bNorm).Some? ==>
      Cosine(Scaled(-k, a), b, k * aNorm, bNorm).value == -Cosine(a, b, aNorm, bNorm).value
  {
    hide Dot, Scaled, Cosine;
    NormScaled(k, a, aNorm);
    NormScaled(-k, a, aNorm);
    CosineStretched(a, b, aNorm, bNorm, k, k, 1.0);
    CosineStretched(a, b, aNorm, bNorm, -k, k, -1.0);
  }
}

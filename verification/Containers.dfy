/** Option and Result values, insertion-ordered dictionaries, and the few facts about
    sequences, multisets and sums that the other modules share. */
module Containers {
  datatype Option<+T> = None | Some(value: T)

  /** A call either returns a value or raises, with the text of the exception. */
  datatype Result<+T> = Ok(value: T) | Raised(error: string)

  ghost predicate Distinct<T>(xs: seq<T>) {
    forall i, j :: 0 <= i < j < |xs| ==> xs[i] != xs[j]
  }

  /** An insertion-ordered dictionary: overwriting a key keeps its position. */
  datatype Dict<K, V> = Dict(keys: seq<K>, vals: map<K, V>)
  {
    ghost predicate Valid() {
      && Distinct(keys)
      && (forall k :: k in keys ==> k in vals)
      && (forall k :: k in vals ==> k in keys)
    }

    function Put(k: K, v: V): (d: Dict<K, V>)
      ensures Valid() ==> d.Valid()
      ensures d.vals == vals[k := v]
    {
      Dict(if k in vals then keys else keys + [k], vals[k := v])
    }
  }

  function EmptyDict<K, V>(): Dict<K, V> {
    Dict([], map[])
  }

  ghost predicate IsPermutation<T>(xs: seq<T>, ys: seq<T>) {
    multiset(xs) == multiset(ys)
  }

  function Min(a: nat, b: nat): nat {
    if a <= b then a else b
  }

  function Last<T>(xs: seq<T>): T
    requires xs != []
  {
    xs[|xs| - 1]
  }

  function Front<T>(xs: seq<T>): seq<T>
    requires xs != []
  {
    xs[..|xs| - 1]
  }

  /** Concatenation of f over xs. */
  function Flat<T, R>(f: T -> seq<R>, xs: seq<T>): seq<R> {
    if xs == [] then [] else Flat(f, Front(xs)) + f(Last(xs))
  }

  /** Sum of f over xs. */
  function Sum<T>(f: T -> real, xs: seq<T>): real {
    if xs == [] then 0.0 else Sum(f, Front(xs)) + f(Last(xs))
  }

  /** The elements of xs that satisfy p, in order. */
  function Filter<T>(p: T -> bool, xs: seq<T>): seq<T> {
    if xs == [] then []
    else Filter(p, Front(xs)) + if p(Last(xs)) then [Last(xs)] else []
  }

  lemma {:induction false} FilterMember<T>(p: T -> bool, xs: seq<T>, x: T)
    ensures x in Filter(p, xs) <==> x in xs && p(x)
  {
    if xs != [] {
      FilterMember(p, Front(xs), x);
      assert xs == Front(xs) + [Last(xs)];
    }
  }

  lemma FlatSnoc<T, R>(f: T -> seq<R>, xs: seq<T>, x: T)
    ensures Flat(f, xs + [x]) == Flat(f, xs) + f(x)
  {
    assert Front(xs + [x]) == xs;
  }

  lemma FlatNone<T, R>(f: T -> seq<R>)
    ensures Flat(f, []) == []
  {
  }

  lemma {:induction false} FlatConcat<T, R>(f: T -> seq<R>, xs: seq<T>, ys: seq<T>)
    ensures Flat(f, xs + ys) == Flat(f, xs) + Flat(f, ys)
  {
    hide Flat;
    if ys == [] {
      FlatNone(f);
      assert xs + ys == xs;
    } else {
      var front, last := Front(ys), Last(ys);
      assert ys == front + [last];
      assert xs + ys == (xs + front) + [last];
      FlatConcat(f, xs, front);
      FlatSnoc(f, xs + front, last);
      FlatSnoc(f, front, last);
    }
  }

  lemma {:induction false} SumConcat<T>(f: T -> real, xs: seq<T>, ys: seq<T>)
    ensures Sum(f, xs + ys) == Sum(f, xs) + Sum(f, ys)
  {
    if ys == [] {
      assert xs + ys == xs;
    } else {
      assert Front(xs + ys) == xs + Front(ys) && Last(xs + ys) == Last(ys);
      SumConcat(f, xs, Front(ys));
    }
  }

  lemma {:induction false} FilterConcat<T>(p: T -> bool, xs: seq<T>, ys: seq<T>)
    ensures Filter(p, xs + ys) == Filter(p, xs) + Filter(p, ys)
  {
    if ys == [] {
      assert xs + ys == xs;
    } else {
      assert Front(xs + ys) == xs + Front(ys) && Last(xs + ys) == Last(ys);
      FilterConcat(p, xs, Front(ys));
    }
  }

  lemma {:induction false} FilterNone<T>(p: T -> bool, xs: seq<T>)
    requires forall i :: 0 <= i < |xs| ==> !p(xs[i])
    ensures Filter(p, xs) == []
  {
    if xs != [] {
      FilterNone(p, Front(xs));
    }
  }

  lemma FilterSnoc<T>(p: T -> bool, xs: seq<T>, x: T)
    ensures Filter(p, xs + [x]) == Filter(p, xs) + if p(x) then [x] else []
  {
    assert Front(xs + [x]) == xs;
  }

  /** Removing the last element of xs from a permutation ys of xs leaves a permutation. */
  lemma SplitPermutation<T>(xs: seq<T>, ys: seq<T>) returns (i: nat)
    requires xs != [] && IsPermutation(xs, ys)
    ensures i < |ys| && ys[i] == Last(xs)
    ensures ys == ys[..i] + [Last(xs)] + ys[i + 1..]
    ensures IsPermutation(Front(xs), ys[..i] + ys[i + 1..])
  {
    assert xs == Front(xs) + [Last(xs)];
    assert Last(xs) in multiset(ys);
    i :| 0 <= i < |ys| && ys[i] == Last(xs);
    assert ys == ys[..i] + [Last(xs)] + ys[i + 1..];
    var rest := ys[..i] + ys[i + 1..];
    assert multiset(ys) == multiset(rest) + multiset{Last(xs)};
    forall x ensures multiset(Front(xs))[x] == multiset(rest)[x] {
      assert multiset(xs)[x] == multiset(Front(xs))[x] + multiset{Last(xs)}[x];
    }
  }

  lemma PermutationLength<T>(xs: seq<T>, ys: seq<T>)
    requires IsPermutation(xs, ys)
    ensures |xs| == |ys|
    ensures forall x :: x in xs <==> x in ys
  {
    assert |multiset(xs)| == |multiset(ys)|;
    forall x ensures x in xs <==> x in ys {
      assert x in xs <==> x in multiset(xs);
      assert x in ys <==> x in multiset(ys);
    }
  }

  lemma FlatMiddle<T, R>(f: T -> seq<R>, xs: seq<T>, y: T, zs: seq<T>)
    ensures Flat(f, xs + [y] + zs) == Flat(f, xs) + f(y) + Flat(f, zs)
  {
    hide Flat;
    FlatConcat(f, xs + [y], zs);
    FlatSnoc(f, xs, y);
  }

  lemma SplitAround<T>(ys: seq<T>, i: nat)
    requires i < |ys|
    ensures ys == ys[..i] + [ys[i]] + ys[i + 1..]
  {
  }

  lemma FlatAround<T, R>(f: T -> seq<R>, ys: seq<T>, i: nat)
    requires i < |ys|
    ensures Flat(f, ys) == Flat(f, ys[..i]) + f(ys[i]) + Flat(f, ys[i + 1..])
  {
    hide Flat;
    SplitAround(ys, i);
    FlatMiddle(f, ys[..i], ys[i], ys[i + 1..]);
  }

  lemma {:induction false} FlatPermutation<T, R>(f: T -> seq<R>, xs: seq<T>, ys: seq<T>)
    requires IsPermutation(xs, ys)
    ensures IsPermutation(Flat(f, xs), Flat(f, ys))
  {
    if xs == [] {
      PermutationLength(xs, ys);
    } else {
      var i := SplitPermutation(xs, ys);
      FlatPermutation(f, Front(xs), ys[..i] + ys[i + 1..]);
      FlatConcat(f, ys[..i], ys[i + 1..]);
      FlatAround(f, ys, i);
    }
  }

  lemma SumAround<T>(f: T -> real, ys: seq<T>, i: nat)
    requires i < |ys|
    ensures Sum(f, ys) == Sum(f, ys[..i]) + f(ys[i]) + Sum(f, ys[i + 1..])
  {
    var upTo := ys[..i + 1];
    assert ys == upTo + ys[i + 1..];
    SumConcat(f, upTo, ys[i + 1..]);
    assert Front(upTo) == ys[..i] && Last(upTo) == ys[i];
  }

  lemma {:induction false} SumPermutation<T>(f: T -> real, xs: seq<T>, ys: seq<T>)
    requires IsPermutation(xs, ys)
    ensures Sum(f, xs) == Sum(f, ys)
  {
    if xs == [] {
      PermutationLength(xs, ys);
    } else {
      var i := SplitPermutation(xs, ys);
      SumPermutation(f, Front(xs), ys[..i] + ys[i + 1..]);
      SumConcat(f, ys[..i], ys[i + 1..]);
      SumAround(f, ys, i);
    }
  }

  lemma FilterAround<T>(p: T -> bool, ys: seq<T>, i: nat)
    requires i < |ys|
    ensures Filter(p, ys) == Filter(p, ys[..i]) + (if p(ys[i]) then [ys[i]] else []) + Filter(p, ys[i + 1..])
  {
    var upTo := ys[..i + 1];
    assert ys == upTo + ys[i + 1..];
    FilterConcat(p, upTo, ys[i + 1..]);
    assert Front(upTo) == ys[..i] && Last(upTo) == ys[i];
  }

  lemma {:induction false} FilterPermutation<T>(p: T -> bool, xs: seq<T>, ys: seq<T>)
    requires IsPermutation(xs, ys)
    ensures IsPermutation(Filter(p, xs), Filter(p, ys))
  {
    if xs == [] {
      PermutationLength(xs, ys);
    } else {
      var i := SplitPermutation(xs, ys);
      FilterPermutation(p, Front(xs), ys[..i] + ys[i + 1..]);
      FilterConcat(p, ys[..i], ys[i + 1..]);
      FilterAround(p, ys, i);
    }
  }

  lemma OccursTwice<T>(xs: seq<T>, i: nat, j: nat)
    requires i < j < |xs| && xs[i] == xs[j]
    ensures multiset(xs)[xs[i]] >= 2
  {
    assert xs == xs[..i] + [xs[i]] + xs[i + 1..j] + [xs[j]] + xs[j + 1..];
  }

  lemma {:induction false} DistinctOccurs<T>(xs: seq<T>, x: T)
    requires Distinct(xs)
    ensures multiset(xs)[x] == if x in xs then 1 else 0
  {
    if x in xs {
      var i :| 0 <= i < |xs| && xs[i] == x;
      assert xs == xs[..i] + [x] + xs[i + 1..];
      assert x !in xs[..i] && x !in xs[i + 1..];
      assert multiset(xs[..i])[x] == 0 && multiset(xs[i + 1..])[x] == 0;
    } else {
      assert x !in multiset(xs);
    }
  }

  lemma DistinctPermutation<T>(xs: seq<T>, ys: seq<T>)
    requires IsPermutation(xs, ys) && Distinct(xs)
    ensures Distinct(ys)
  {
    forall i, j | 0 <= i < j < |ys| ensures ys[i] != ys[j] {
      if ys[i] == ys[j] {
        OccursTwice(ys, i, j);
        DistinctOccurs(xs, ys[i]);
      }
    }
  }

  /** Two distinct sequences with the same elements are permutations of each other. */
  lemma SameElements<T>(xs: seq<T>, ys: seq<T>)
    requires Distinct(xs) && Distinct(ys)
    requires forall x :: x in xs <==> x in ys
    ensures IsPermutation(xs, ys)
  {
    forall x ensures multiset(xs)[x] == multiset(ys)[x] {
      DistinctOccurs(xs, x);
      DistinctOccurs(ys, x);
    }
  }

  /** A sequence is distinct when no element occurs more than once in it. */
  lemma DistinctFromCounts<T>(xs: seq<T>)
    requires forall x :: x in xs ==> multiset(xs)[x] <= 1
    ensures Distinct(xs)
  {
    forall i, j | 0 <= i < j < |xs| ensures xs[i] != xs[j] {
      if xs[i] == xs[j] {
        OccursTwice(xs, i, j);
      }
    }
  }

  lemma {:induction false} SubsetSize<T>(s: set<T>, t: set<T>)
    requires s <= t
    ensures |s| <= |t|
  {
    if s != {} {
      var x :| x in s;
      SubsetSize(s - {x}, t - {x});
    }
  }

  lemma {:induction false} DistinctSetSize<T(!new)>(xs: seq<T>)
    requires Distinct(xs)
    ensures |set x | x in xs| == |xs|
  {
    if xs != [] {
      assert xs == Front(xs) + [Last(xs)];
      DistinctSetSize(Front(xs));
      assert (set x | x in xs) == (set x | x in Front(xs)) + {Last(xs)};
    }
  }

  lemma {:induction false} SetSizeAtMost<T(!new)>(xs: seq<T>)
    ensures |set x | x in xs| <= |xs|
  {
    if xs != [] {
      assert xs == Front(xs) + [Last(xs)];
      SetSizeAtMost(Front(xs));
      assert (set x | x in xs) == (set x | x in Front(xs)) + {Last(xs)};
    }
  }

  /** A sequence without repeats is at most as long as any sequence that holds its elements. */
  lemma DistinctWithin<T(!new)>(xs: seq<T>, ys: seq<T>)
    requires Distinct(xs) && forall x :: x in xs ==> x in ys
    ensures |xs| <= |ys|
  {
    DistinctSetSize(xs);
    SetSizeAtMost(ys);
    SubsetSize(set x | x in xs, set y | y in ys);
  }

  /** The first kept element is the first that satisfies p. */
  lemma {:induction false} FilterFirst<T>(p: T -> bool, xs: seq<T>) returns (i: int)
    ensures Filter(p, xs) == [] ==> forall j :: 0 <= j < |xs| ==> !p(xs[j])
    ensures Filter(p, xs) != [] ==>
      0 <= i < |xs| && p(xs[i]) && xs[i] == Filter(p, xs)[0] && forall j :: 0 <= j < i ==> !p(xs[j])
  {
    i := 0;
    if xs != [] {
      var front, last := Front(xs), Last(xs);
      assert xs == front + [last];
      i := FilterFirst(p, front);
      FilterSnoc(p, front, last);
      assert forall j :: 0 <= j < |front| ==> xs[j] == front[j];
      if Filter(p, front) == [] {
        i := |front|;
      }
    }
  }

  lemma {:induction false} FilterTwice<T>(p: T -> bool, xs: seq<T>)
    ensures |Filter(p, xs)| <= 1 <==> forall i, j :: 0 <= i < j < |xs| ==> !(p(xs[i]) && p(xs[j]))
  {
    if xs != [] {
      var front, last := Front(xs), Last(xs);
      assert xs == front + [last];
      FilterTwice(p, front);
      FilterSnoc(p, front, last);
      assert forall j :: 0 <= j < |front| ==> xs[j] == front[j];
      var k := FilterFirst(p, front);
      if Filter(p, front) != [] && p(last) {
        assert p(xs[k]) && p(xs[|front|]);
      }
    }
  }

  /** ys lists the elements of xs at the given increasing positions, and these are all that satisfy p. */
  ghost predicate PicksAll<T(!new)>(p: T -> bool, xs: seq<T>, ys: seq<T>, positions: seq<int>) {
    && |positions| == |ys|
    && (forall a, b :: 0 <= a < b < |positions| ==> positions[a] < positions[b])
    && (forall a :: 0 <= a < |positions| ==> 0 <= positions[a] < |xs| && xs[positions[a]] == ys[a] && p(ys[a]))
    && (forall i :: 0 <= i < |xs| && p(xs[i]) ==> i in positions)
  }

  lemma PicksAllSnoc<T(!new)>(p: T -> bool, xs: seq<T>, x: T, ys: seq<T>, positions: seq<int>)
    requires PicksAll(p, xs, ys, positions)
    ensures p(x) ==> PicksAll(p, xs + [x], ys + [x], positions + [|xs|])
    ensures !p(x) ==> PicksAll(p, xs + [x], ys, positions)
  {
    var all, places := xs + [x], positions + [|xs|];
    assert forall i :: 0 <= i < |xs| ==> all[i] == xs[i];
    assert forall i :: i in places <==> i in positions || i == |xs|;
  }

  lemma {:induction false} FilterPicksAll<T(!new)>(p: T -> bool, xs: seq<T>) returns (positions: seq<int>)
    ensures PicksAll(p, xs, Filter(p, xs), positions)
  {
    positions := [];
    if xs != [] {
      hide PicksAll;
      var front, last := Front(xs), Last(xs);
      assert xs == front + [last];
      positions := FilterPicksAll(p, front);
      FilterSnoc(p, front, last);
      PicksAllSnoc(p, front, last, Filter(p, front), positions);
      if p(last) {
        positions := positions + [|front|];
      } else {
        assert Filter(p, xs) == Filter(p, front);
      }
    }
  }

  /** What f makes of xs is g of the elements that satisfy p, if that is so for every element. */
  lemma {:induction false} FlatIsFilter<T(!new), R>(f: T -> seq<R>, p: T -> bool, g: T -> R, xs: seq<T>)
    requires forall x :: f(x) == if p(x) then [g(x)] else []
    ensures |Flat(f, xs)| == |Filter(p, xs)|
    ensures forall i :: 0 <= i < |Flat(f, xs)| ==> Flat(f, xs)[i] == g(Filter(p, xs)[i])
  {
    if xs != [] {
      FlatIsFilter(f, p, g, Front(xs));
    }
  }
}

/** Task identifiers: a phase prefix and a decimal number padded with zeros to five digits. */
module TaskIds {
  import opened Containers

  function Digit(d: nat): char
    requires d < 10
  {
    ['0', '1', '2', '3', '4', '5', '6', '7', '8', '9'][d]
  }

  function Decimal(n: nat): string {
    if n < 10 then [Digit(n)] else Decimal(n / 10) + [Digit(n % 10)]
  }

  function Zeros(k: nat): string {
    if k == 0 then "" else Zeros(k - 1) + "0"
  }

  /** The format {n:05d}: wider numbers keep all their digits. */
  function ZeroPadded(n: nat): string {
    var d := Decimal(n);
    if |d| < 5 then Zeros(5 - |d|) + d else d
  }

  function BaseTaskId(n: nat): string {
    "task-" + ZeroPadded(n)
  }

  function DependentTaskId(n: nat): string {
    "dep-" + ZeroPadded(n)
  }

  /** The number a string of digits denotes. */
  function ParseDecimal(s: string): int {
    if s == "" then 0 else 10 * ParseDecimal(Front(s)) + (Last(s) as int - '0' as int)
  }

  lemma {:induction false} ParseConcat(s: string, c: char)
    ensures ParseDecimal(s + [c]) == 10 * ParseDecimal(s) + (c as int - '0' as int)
  {
    assert Front(s + [c]) == s;
  }

  lemma {:induction false} ParseOfDecimal(n: nat)
    ensures ParseDecimal(Decimal(n)) == n
  {
    if n < 10 {
      ParseConcat("", Digit(n));
      assert "" + [Digit(n)] == [Digit(n)];
    } else {
      ParseOfDecimal(n / 10);
      ParseConcat(Decimal(n / 10), Digit(n % 10));
    }
  }

  lemma {:induction false} ParseOfPadded(k: nat, s: string)
    ensures ParseDecimal(Zeros(k) + s) == ParseDecimal(s)
    decreases |s|, k
  {
    if s == "" {
      assert Zeros(k) + s == Zeros(k);
      if k > 0 {
        ParseConcat(Zeros(k - 1), '0');
        ParseOfPadded(k - 1, "");
        assert Zeros(k - 1) + "" == Zeros(k - 1);
      }
    } else {
      assert Zeros(k) + s == Zeros(k) + Front(s) + [Last(s)];
      ParseConcat(Zeros(k) + Front(s), Last(s));
      ParseOfPadded(k, Front(s));
    }
  }

  /** Reading a padded identifier number gives the number back. */
  lemma PaddedRoundTrip(n: nat)
    ensures ParseDecimal(ZeroPadded(n)) == n
  {
    ParseOfDecimal(n);
    ParseOfPadded(if |Decimal(n)| < 5 then 5 - |Decimal(n)| else 0, Decimal(n));
  }

  /** Identifiers of one phase never collide, and the two phases never share one. */
  lemma TaskIdsDistinct(m: nat, n: nat)
    ensures BaseTaskId(m) == BaseTaskId(n) ==> m == n
    ensures DependentTaskId(m) == DependentTaskId(n) ==> m == n
    ensures BaseTaskId(m) != DependentTaskId(n)
  {
    PaddedRoundTrip(m);
    PaddedRoundTrip(n);
    assert BaseTaskId(m)[5..] == ZeroPadded(m) && BaseTaskId(n)[5..] == ZeroPadded(n);
    assert DependentTaskId(m)[4..] == ZeroPadded(m) && DependentTaskId(n)[4..] == ZeroPadded(n);
    assert BaseTaskId(m)[0] == 't' && DependentTaskId(n)[0] == 'd';
  }

  ghost predicate AllDigits(s: string) {
    forall i :: 0 <= i < |s| ==> '0' <= s[i] <= '9'
  }

  lemma {:induction false} DecimalShape(n: nat)
    ensures AllDigits(Decimal(n)) && Decimal(n) != "" && (n > 0 ==> Decimal(n)[0] != '0')
  {
    if n >= 10 {
      DecimalShape(n / 10);
    }
  }

  lemma {:induction false} ZerosShape(k: nat)
    ensures AllDigits(Zeros(k)) && |Zeros(k)| == k
  {
    if k > 0 {
      ZerosShape(k - 1);
    }
  }

  lemma ShortZero()
    ensures |Decimal(0)| == 1
  {
  }

  /** Padded numbers are digits only, at least five of them, and without a leading zero if there are more. */
  lemma PaddedShape(n: nat)
    ensures var s := ZeroPadded(n);
            AllDigits(s) && |s| >= 5 && (|s| > 5 ==> s[0] != '0')
  {
    DecimalShape(n);
    hide Decimal, Zeros;
    if |Decimal(n)| < 5 {
      ZerosShape(5 - |Decimal(n)|);
    } else if n == 0 {
      ShortZero();
    }
  }
}

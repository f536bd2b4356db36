/** Decimal numerals by the weight of their digits, against the digit-by-digit conversions. */
module Decimals {
  import opened Prelude
  import opened JsText
  import T = JsonTrees

  function PowerOfTen(n: nat): (r: nat)
    ensures r > 0
  {
    if n == 0 then 1 else 10 * PowerOfTen(n - 1)
  }

  /** Every digit times the power of ten of its place. */
  function Weighed(s: JsString): int {
    if s == [] then 0 else (s[0] - 48) * PowerOfTen(|s| - 1) + Weighed(s[1..])
  }

  /** Digits without a leading zero, except for zero itself. */
  ghost predicate IsNumeral(s: JsString) {
    s != [] && (forall i :: 0 <= i < |s| ==> 48 <= s[i] <= 57) && (s[0] == 48 ==> |s| == 1)
  }

  lemma {:induction false} WeighedSnoc(s: JsString, u: CodeUnit)
    ensures Weighed(s + [u]) == 10 * Weighed(s) + (u - 48)
  {
    if s == [] {
      assert [u][1..] == [] && PowerOfTen(0) == 1;
    } else {
      WeighedSnoc(s[1..], u);
      assert (s + [u])[1..] == s[1..] + [u];
      Distribute(s[0] as int - 48, PowerOfTen(|s| - 1), Weighed(s[1..]));
    }
  }

  lemma Distribute(d: int, p: int, w: int)
    ensures d * (10 * p) + 10 * w == 10 * (d * p + w)
  {
  }

  /** A number is printed as its numeral. */
  lemma {:induction false} DecimalIsNumeral(n: nat)
    ensures IsNumeral(Decimal(n)) && Weighed(Decimal(n)) == n
    ensures n > 0 ==> Decimal(n)[0] != 48
  {
    if n < 10 {
      assert Decimal(n)[1..] == [] && PowerOfTen(0) == 1;
    } else {
      DecimalIsNumeral(n / 10);
      WeighedSnoc(Decimal(n / 10), 48 + n % 10);
    }
  }

  lemma {:induction false} ValueIsWeight(s: JsString)
    requires T.IsDigits(s)
    ensures T.DecimalValue(s) == Weighed(s)
    decreases |s|
  {
    if s != [] {
      T.DigitsOfPrefix(s);
      ValueIsWeight(s[..|s| - 1]);
      WeighedSnoc(s[..|s| - 1], s[|s| - 1]);
      assert s == s[..|s| - 1] + [s[|s| - 1]];
    }
  }

  lemma {:induction false} DigitsAre(s: JsString)
    ensures T.IsDigits(s) <==> forall i :: 0 <= i < |s| ==> 48 <= s[i] <= 57
  {
    if s != [] {
      DigitsAre(s[1..]);
      if T.IsDigits(s) {
        forall i | 0 <= i < |s| ensures 48 <= s[i] <= 57 { if i > 0 { assert s[i] == s[1..][i - 1]; } }
      }
    }
  }

  /** Digits below a power of ten weigh less than it. */
  lemma {:induction false} WeightBounds(s: JsString)
    requires forall i :: 0 <= i < |s| ==> 48 <= s[i] <= 57
    ensures 0 <= Weighed(s) < PowerOfTen(|s|)
  {
    if s != [] {
      WeightBounds(s[1..]);
      Bounded(s[0] as int - 48, PowerOfTen(|s| - 1), Weighed(s[1..]));
    }
  }

  lemma Bounded(d: int, p: int, w: int)
    requires 0 <= d <= 9 && 0 <= w < p
    ensures 0 <= d * p + w < 10 * p
  {
    Scaled(d, 9, p);
    Scaled(0, d, p);
  }

  lemma Scaled(a: int, b: int, p: int)
    requires a <= b && p >= 0
    ensures a * p <= b * p
  {
    assert (b - a) * p >= 0;
  }

  lemma {:induction false} NumeralIsDecimal(s: JsString)
    requires IsNumeral(s)
    ensures Weighed(s) >= 0 && Decimal(Weighed(s)) == s
    decreases |s|
  {
    WeightBounds(s);
    var front, last := s[..|s| - 1], s[|s| - 1];
    assert s == front + [last];
    WeighedSnoc(front, last);
    if |s| > 1 {
      assert IsNumeral(front);
      NumeralIsDecimal(front);
      LeadWeighs(front);
    }
  }

  lemma LeadWeighs(s: JsString)
    requires IsNumeral(s) && s[0] != 48
    ensures Weighed(s) >= 1
  {
    WeightBounds(s[1..]);
    Scaled(1, s[0] as int - 48, PowerOfTen(|s| - 1));
  }

  /** The canonical array indexes are exactly the numerals of the numbers below 2^32 - 1. */
  lemma IndexesAreNumerals(s: JsString)
    ensures T.IsArrayIndex(s) <==> exists n: nat :: n < 4_294_967_295 && s == Decimal(n)
    ensures forall n: nat :: n < 4_294_967_295 && s == Decimal(n) ==> T.IndexValue(s) == n
  {
    DigitsAre(s);
    if T.IsArrayIndex(s) {
      ValueIsWeight(s);
      NumeralIsDecimal(s);
      assert s == Decimal(T.DecimalValue(s));
    }
    forall n: nat | n < 4_294_967_295 && s == Decimal(n) ensures T.IsArrayIndex(s) && T.IndexValue(s) == n {
      DecimalIsNumeral(n);
      ValueIsWeight(s);
    }
  }
}

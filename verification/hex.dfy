/** Four lowercase hexadecimal digits for one UTF-16 code unit. */
module Hex {
  import opened Prelude
  import opened JsText

  /** `(n).toString(16)` for a single digit: 0-9 then a-f. */
  function Digit(n: nat): CodeUnit
    requires n < 16
  {
    if n < 10 then 48 + n else 87 + n
  }

  /** The value of a lowercase hexadecimal digit, if the code unit is one. */
  function DigitValue(u: CodeUnit): (r: Option<nat>)
    ensures r.Some? ==> r.value < 16 && Digit(r.value) == u
  {
    if 48 <= u <= 57 then Some(u - 48) else if 97 <= u <= 102 then Some(u - 87) else None
  }

  function Four(u: CodeUnit): (r: JsString)
    ensures |r| == 4
  {
    [Digit(u / 4096), Digit(u / 256 % 16), Digit(u / 16 % 16), Digit(u % 16)]
  }

  lemma DigitsAreRead(n: nat)
    requires n < 16
    ensures DigitValue(Digit(n)) == Some(n)
  {
  }

  lemma Recomposed(u: CodeUnit)
    ensures u == 4096 * (u / 4096) + 256 * (u / 256 % 16) + 16 * (u / 16 % 16) + u % 16
  {
    assert u / 16 / 16 == u / 256 && u / 256 / 16 == u / 4096;
  }

  lemma FourIsInjective(u: CodeUnit, w: CodeUnit)
    requires Four(u) == Four(w)
    ensures u == w
  {
    var a, b := Four(u), Four(w);
    assert a[0] == b[0] && a[1] == b[1] && a[2] == b[2] && a[3] == b[3];
    assert u / 4096 == w / 4096 && u / 256 % 16 == w / 256 % 16 && u / 16 % 16 == w / 16 % 16 && u % 16 == w % 16;
    Recomposed(u);
    Recomposed(w);
  }

  /** Four lowercase hexadecimal digits. */
  predicate IsFour(e: JsString) {
    |e| == 4 && forall i :: 0 <= i < 4 ==> DigitValue(e[i]).Some?
  }

  /** `Number.parseInt(e, 16)` on four such digits. */
  function Value(e: JsString): (u: CodeUnit)
    requires IsFour(e)
  {
    4096 * DigitValue(e[0]).value + 256 * DigitValue(e[1]).value + 16 * DigitValue(e[2]).value + DigitValue(e[3]).value
  }

  lemma ValueOfFour(u: CodeUnit)
    ensures IsFour(Four(u)) && Value(Four(u)) == u
  {
    DigitsAreRead(u / 4096);
    DigitsAreRead(u / 256 % 16);
    DigitsAreRead(u / 16 % 16);
    DigitsAreRead(u % 16);
    Recomposed(u);
  }

  lemma NestedDigits(a: nat, b: nat, c: nat, d: nat)
    requires a < 16 && b < 16 && c < 16 && d < 16
    ensures var u := 4096 * a + 256 * b + 16 * c + d;
            u / 4096 == a && u / 256 % 16 == b && u / 16 % 16 == c && u % 16 == d
  {
    var u := 4096 * a + 256 * b + 16 * c + d;
    assert u / 16 == 256 * a + 16 * b + c;
    assert u / 256 == 16 * a + b;
  }

  lemma FourOfValue(e: JsString)
    requires IsFour(e)
    ensures Four(Value(e)) == e
  {
    NestedDigits(DigitValue(e[0]).value, DigitValue(e[1]).value, DigitValue(e[2]).value, DigitValue(e[3]).value);
  }
}

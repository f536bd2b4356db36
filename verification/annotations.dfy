/** GitHub workflow annotations: escaping, rendering, and reading them back. */
module Annotations {
  import opened Prelude
  import opened JsText
  import opened JsSplit
  import opened Findings

  const PERCENT: CodeUnit := 37
  const CR: CodeUnit := 13
  const LF: CodeUnit := 10
  const COLON: CodeUnit := 58
  const COMMA: CodeUnit := 44
  const EQUALS: CodeUnit := 61
  const SPACE: CodeUnit := 32

  // ---------------------------------------------------------------- escaping

  /** `value.replace(/u/g, text)` */
  function Replace(s: JsString, u: CodeUnit, text: JsString): JsString {
    if s == [] then [] else (if s[0] == u then text else [s[0]]) + Replace(s[1..], u, text)
  }

  function EscapeData(value: JsString): JsString {
    Replace(Replace(Replace(value, PERCENT, [37, 50, 53]), CR, [37, 48, 68]), LF, [37, 48, 65])
  }

  function EscapeProperty(value: JsString): JsString {
    Replace(Replace(EscapeData(value), COLON, [37, 51, 65]), COMMA, [37, 50, 67])
  }

  /** What one unit becomes in data, and in a property. */
  function Escaped(u: CodeUnit, property: bool): (r: JsString)
    ensures |r| > 0
  {
    if u == PERCENT then [37, 50, 53]
    else if u == CR then [37, 48, 68]
    else if u == LF then [37, 48, 65]
    else if property && u == COLON then [37, 51, 65]
    else if property && u == COMMA then [37, 50, 67]
    else [u]
  }

  function EscapedAll(s: JsString, property: bool): JsString {
    if s == [] then [] else Escaped(s[0], property) + EscapedAll(s[1..], property)
  }

  lemma {:induction false} ReplaceConcat(a: JsString, b: JsString, u: CodeUnit, text: JsString)
    ensures Replace(a + b, u, text) == Replace(a, u, text) + Replace(b, u, text)
  {
    if a == [] {
      assert a + b == b;
    } else {
      assert (a + b)[1..] == a[1..] + b;
      ReplaceConcat(a[1..], b, u, text);
    }
  }

  lemma {:induction false} ReplaceNothing(s: JsString, u: CodeUnit, text: JsString)
    requires u !in s
    ensures Replace(s, u, text) == s
  {
    if s != [] {
      assert s == [s[0]] + s[1..];
      ReplaceNothing(s[1..], u, text);
    }
  }

  lemma ReplaceUnit(c: CodeUnit, u: CodeUnit, text: JsString)
    ensures Replace([c], u, text) == if c == u then text else [c]
  {
    assert [c][1..] == [];
  }

  lemma DataUnit(c: CodeUnit)
    ensures EscapeData([c]) == Escaped(c, false)
  {
    ReplaceUnit(c, PERCENT, [37, 50, 53]);
    var first := Replace([c], PERCENT, [37, 50, 53]);
    if c == PERCENT { ReplaceNothing(first, CR, [37, 48, 68]); } else { ReplaceUnit(c, CR, [37, 48, 68]); }
    var second := Replace(first, CR, [37, 48, 68]);
    if c == PERCENT || c == CR { ReplaceNothing(second, LF, [37, 48, 65]); } else { ReplaceUnit(c, LF, [37, 48, 65]); }
  }

  lemma PropertyUnit(c: CodeUnit)
    ensures EscapeProperty([c]) == Escaped(c, true)
  {
    DataUnit(c);
    var data := EscapeData([c]);
    if c == COLON { ReplaceUnit(c, COLON, [37, 51, 65]); } else { ReplaceNothing(data, COLON, [37, 51, 65]); }
    var third := Replace(data, COLON, [37, 51, 65]);
    if c == COMMA { ReplaceUnit(c, COMMA, [37, 50, 67]); } else { ReplaceNothing(third, COMMA, [37, 50, 67]); }
  }

  lemma DataConcat(a: JsString, b: JsString)
    ensures EscapeData(a + b) == EscapeData(a) + EscapeData(b)
  {
    ReplaceConcat(a, b, PERCENT, [37, 50, 53]);
    var a1, b1 := Replace(a, PERCENT, [37, 50, 53]), Replace(b, PERCENT, [37, 50, 53]);
    ReplaceConcat(a1, b1, CR, [37, 48, 68]);
    ReplaceConcat(Replace(a1, CR, [37, 48, 68]), Replace(b1, CR, [37, 48, 68]), LF, [37, 48, 65]);
  }

  lemma PropertyConcat(a: JsString, b: JsString)
    ensures EscapeProperty(a + b) == EscapeProperty(a) + EscapeProperty(b)
  {
    DataConcat(a, b);
    ReplaceConcat(EscapeData(a), EscapeData(b), COLON, [37, 51, 65]);
    ReplaceConcat(Replace(EscapeData(a), COLON, [37, 51, 65]), Replace(EscapeData(b), COLON, [37, 51, 65]),
                  COMMA, [37, 50, 67]);
  }

  /** The chained replacements escape each unit on its own: no escape is escaped again. */
  lemma {:induction false} ReplacementsAreOneMap(s: JsString)
    ensures EscapeData(s) == EscapedAll(s, false) && EscapeProperty(s) == EscapedAll(s, true)
  {
    if s != [] {
      assert s == [s[0]] + s[1..];
      ReplacementsAreOneMap(s[1..]);
      DataUnit(s[0]);
      PropertyUnit(s[0]);
      DataConcat([s[0]], s[1..]);
      PropertyConcat([s[0]], s[1..]);
    }
  }

  // -------------------------------------------------------------- unescaping

  /** What an upper-case hexadecimal digit stands for. */
  function DigitValue(u: CodeUnit): Option<nat> {
    if 48 <= u <= 57 then Some(u as int - 48) else if 65 <= u <= 70 then Some(u as int - 55) else None
  }

  /**
   * The unit that a percent code at the front stands for. GitHub decodes only the codes of the
   * percent sign, carriage return and line feed, and in properties those of colon and comma.
   */
  function Code(s: JsString, property: bool): Option<CodeUnit> {
    if |s| < 3 || s[0] != 37 || DigitValue(s[1]).None? || DigitValue(s[2]).None? then None
    else
      var u := 16 * DigitValue(s[1]).value + DigitValue(s[2]).value;
      if u == 37 || u == 13 || u == 10 || (property && (u == 58 || u == 44)) then Some(u) else None
  }

  function Unescape(s: JsString, property: bool): JsString {
    if s == [] then []
    else
      match Code(s, property)
      case Some(u) => [u] + Unescape(s[3..], property)
      case None => [s[0]] + Unescape(s[1..], property)
  }

  /** An escape is read as the unit it was made of, whatever follows. */
  lemma CodeOfEscaped(u: CodeUnit, property: bool, rest: JsString)
    ensures var e := Escaped(u, property);
      if |e| == 1 then e == [u] && Code(e + rest, property).None? else |e| == 3 && Code(e + rest, property) == Some(u)
  {
    var e := Escaped(u, property);
    assert forall i :: 0 <= i < |e| ==> (e + rest)[i] == e[i];
  }

  lemma {:induction false} UnescapeUndoesEscape(s: JsString, property: bool)
    ensures Unescape(EscapedAll(s, property), property) == s
  {
    if s != [] {
      var e, rest := Escaped(s[0], property), EscapedAll(s[1..], property);
      UnescapeUndoesEscape(s[1..], property);
      CodeOfEscaped(s[0], property, rest);
      assert s == [s[0]] + s[1..];
      assert (e + rest)[|e|..] == rest;
    }
  }

  lemma {:induction false} EscapedHolds(s: JsString, property: bool)
    ensures CR !in EscapedAll(s, property) && LF !in EscapedAll(s, property)
    ensures property ==> COLON !in EscapedAll(s, property) && COMMA !in EscapedAll(s, property)
  {
    if s != [] { EscapedHolds(s[1..], property); }
  }
}

/** JSON text as JSON.stringify prints it, and why equal text means equal data. */
module JsonText {
  import opened Prelude
  import opened JsText
  import opened Sorting
  import Hex

  // ---------------------------------------------------------------- strings

  const QUOTE: CodeUnit := 34
  const COMMA: CodeUnit := 44
  const COLON: CodeUnit := 58
  const OPEN_ARRAY: CodeUnit := 91
  const BACKSLASH: CodeUnit := 92
  const CLOSE_ARRAY: CodeUnit := 93
  const OPEN_OBJECT: CodeUnit := 123
  const CLOSE_OBJECT: CodeUnit := 125

  predicate IsLead(u: CodeUnit) { 0xD800 <= u < 0xDC00 }

  predicate IsTrail(u: CodeUnit) { 0xDC00 <= u < 0xE000 }

  predicate StartsWithPair(s: JsString) { |s| >= 2 && IsLead(s[0]) && IsTrail(s[1]) }

  /** One code unit that is not half of a surrogate pair. */
  function EscapeUnit(u: CodeUnit): (r: JsString)
    ensures |r| > 0 && r[0] != QUOTE && !IsLead(r[0])
  {
    if u == 8 then [BACKSLASH, 98]
    else if u == 9 then [BACKSLASH, 116]
    else if u == 10 then [BACKSLASH, 110]
    else if u == 12 then [BACKSLASH, 102]
    else if u == 13 then [BACKSLASH, 114]
    else if u == QUOTE || u == BACKSLASH then [BACKSLASH, u]
    else if u < 32 || IsLead(u) || IsTrail(u) then [BACKSLASH, 117] + Hex.Four(u)
    else [u]
  }

  /** Surrogate pairs stand for themselves; a lone surrogate is escaped. */
  function Escape(s: JsString): JsString {
    if s == [] then []
    else if StartsWithPair(s) then s[..2] + Escape(s[2..])
    else EscapeUnit(s[0]) + Escape(s[1..])
  }

  function Quote(s: JsString): JsString {
    [QUOTE] + Escape(s) + [QUOTE]
  }

  lemma EscapeUnitPrefix(a: CodeUnit, b: CodeUnit, x: JsString, y: JsString)
    requires EscapeUnit(a) + x == EscapeUnit(b) + y
    ensures a == b && x == y
  {
    var e, f := EscapeUnit(a), EscapeUnit(b);
    var text := e + x;
    assert text[0] == e[0] && text[0] == f[0];
    if e[0] == BACKSLASH {
      assert text[1] == e[1] && text[1] == f[1];
      if e[1] == 117 {
        assert text[2..6] == Hex.Four(a) && text[2..6] == Hex.Four(b);
        Hex.FourIsInjective(a, b);
      }
    }
    assert a == b;
    assert x == text[|e|..] && y == text[|f|..];
  }

  /** The first unit tells apart the end, a surrogate pair and anything else. */
  lemma EscapedHead(s: JsString, rest: JsString)
    requires rest != [] && rest[0] == QUOTE
    ensures Escape(s) + rest != []
    ensures (Escape(s) + rest)[0] == QUOTE <==> s == []
    ensures IsLead((Escape(s) + rest)[0]) <==> StartsWithPair(s)
  {
  }

  lemma EscapePairStep(a: JsString, b: JsString, x: JsString, y: JsString)
    requires StartsWithPair(a) && StartsWithPair(b) && Escape(a) + x == Escape(b) + y
    ensures a[..2] == b[..2] && Escape(a[2..]) + x == Escape(b[2..]) + y
  {
    Regroup(a[..2], Escape(a[2..]), x);
    Regroup(b[..2], Escape(b[2..]), y);
    CutAt(a[..2], Escape(a[2..]) + x, b[..2], Escape(b[2..]) + y);
  }

  lemma EscapeUnitStep(a: JsString, b: JsString, x: JsString, y: JsString)
    requires a != [] && b != [] && !StartsWithPair(a) && !StartsWithPair(b) && Escape(a) + x == Escape(b) + y
    ensures a[0] == b[0] && Escape(a[1..]) + x == Escape(b[1..]) + y
  {
    Regroup(EscapeUnit(a[0]), Escape(a[1..]), x);
    Regroup(EscapeUnit(b[0]), Escape(b[1..]), y);
    EscapeUnitPrefix(a[0], b[0], Escape(a[1..]) + x, Escape(b[1..]) + y);
  }

  /** An escaped string ends at its first bare quote. */
  lemma {:induction false} EscapePrefix(a: JsString, b: JsString, x: JsString, y: JsString)
    requires x != [] && x[0] == QUOTE && y != [] && y[0] == QUOTE
    requires Escape(a) + x == Escape(b) + y
    ensures a == b && x == y
  {
    EscapedHead(a, x);
    EscapedHead(b, y);
    if a != [] {
      if StartsWithPair(a) {
        EscapePairStep(a, b, x, y);
        EscapePrefix(a[2..], b[2..], x, y);
        CutBack(a, b, 2);
      } else {
        EscapeUnitStep(a, b, x, y);
        EscapePrefix(a[1..], b[1..], x, y);
        CutBack(a, b, 1);
      }
    } else {
      assert Escape(a) + x == x && Escape(b) + y == y;
    }
  }

  lemma CutBack(a: JsString, b: JsString, n: nat)
    requires n <= |a| && n <= |b| && a[..n] == b[..n] && a[n..] == b[n..]
    ensures a == b
  {
    assert a == a[..n] + a[n..] && b == b[..n] + b[n..];
  }

  /** A quoted string can be read back from the front of any text. */
  lemma QuotePrefix(a: JsString, b: JsString, x: JsString, y: JsString)
    requires Quote(a) + x == Quote(b) + y
    ensures a == b && x == y
  {
    var tx, ty := [QUOTE] + x, [QUOTE] + y;
    assert Quote(a) + x == [QUOTE] + (Escape(a) + tx);
    assert Quote(b) + y == [QUOTE] + (Escape(b) + ty);
    CutAt([QUOTE], Escape(a) + tx, [QUOTE], Escape(b) + ty);
    EscapePrefix(a, b, tx, ty);
    CutAt([QUOTE], x, [QUOTE], y);
  }
}

/** `split` and `join` with a one-unit separator, and searching for a unit. */
module JsSplit {
  import opened Prelude
  import opened JsText

  /** `s.split(sep)` with `piece` read so far. */
  function SplitAfter(sep: CodeUnit, piece: JsString, s: JsString): (r: seq<JsString>)
    ensures |r| > 0
    decreases |s|
  {
    if s == [] then [piece]
    else if s[0] == sep then [piece] + SplitAfter(sep, [], s[1..])
    else SplitAfter(sep, piece + [s[0]], s[1..])
  }

  function Split(sep: CodeUnit, s: JsString): (r: seq<JsString>)
    ensures |r| > 0
  {
    SplitAfter(sep, [], s)
  }

  function Join(sep: CodeUnit, pieces: seq<JsString>): JsString
    requires |pieces| > 0
  {
    if |pieces| == 1 then pieces[0] else pieces[0] + ([sep] + Join(sep, pieces[1..]))
  }

  lemma {:induction false} ReadsPiece(sep: CodeUnit, read: JsString, piece: JsString, rest: JsString)
    requires sep !in piece
    ensures SplitAfter(sep, read, piece + rest) == SplitAfter(sep, read + piece, rest)
    decreases |piece|
  {
    if piece == [] {
      assert piece + rest == rest && read + piece == read;
    } else {
      assert piece[0] in piece;
      assert (piece + rest)[1..] == piece[1..] + rest && (read + [piece[0]]) + piece[1..] == read + piece;
      ReadsPiece(sep, read + [piece[0]], piece[1..], rest);
    }
  }

  /** Splitting recovers pieces that do not hold the separator. */
  lemma {:induction false} SplitUndoesJoin(sep: CodeUnit, pieces: seq<JsString>)
    requires |pieces| > 0 && forall i :: 0 <= i < |pieces| ==> sep !in pieces[i]
    ensures Split(sep, Join(sep, pieces)) == pieces
  {
    assert [] + pieces[0] == pieces[0];
    if |pieces| == 1 {
      assert pieces[0] + [] == pieces[0];
      ReadsPiece(sep, [], pieces[0], []);
    } else {
      var rest := [sep] + Join(sep, pieces[1..]);
      ReadsPiece(sep, [], pieces[0], rest);
      SplitUndoesJoin(sep, pieces[1..]);
      assert rest[1..] == Join(sep, pieces[1..]);
    }
  }

  lemma {:induction false} JoinUndoesSplitAfter(sep: CodeUnit, piece: JsString, s: JsString)
    ensures Join(sep, SplitAfter(sep, piece, s)) == piece + s
    decreases |s|
  {
    if s == [] {
      assert piece + s == piece;
    } else if s[0] == sep {
      JoinUndoesSplitAfter(sep, [], s[1..]);
      assert [] + s[1..] == s[1..] && [sep] + s[1..] == s;
      var tail := SplitAfter(sep, [], s[1..]);
      assert ([piece] + tail)[1..] == tail;
    } else {
      JoinUndoesSplitAfter(sep, piece + [s[0]], s[1..]);
      assert (piece + [s[0]]) + s[1..] == piece + s;
    }
  }

  /** Every string is the join of its pieces. */
  lemma JoinUndoesSplit(sep: CodeUnit, s: JsString)
    ensures Join(sep, Split(sep, s)) == s
  {
    JoinUndoesSplitAfter(sep, [], s);
    assert [] + s == s;
  }

  /** Position of the first such unit, or the length. */
  function IndexOf(u: CodeUnit, s: JsString): (i: nat)
    ensures i <= |s|
  {
    if s == [] || s[0] == u then 0 else 1 + IndexOf(u, s[1..])
  }

  lemma {:induction false} IndexAfter(u: CodeUnit, front: JsString, rest: JsString)
    requires u !in front && rest != [] && rest[0] == u
    ensures IndexOf(u, front + rest) == |front|
  {
    if front == [] {
      assert front + rest == rest;
    } else {
      assert front[0] in front;
      assert (front + rest)[1..] == front[1..] + rest;
      IndexAfter(u, front[1..], rest);
    }
  }
}

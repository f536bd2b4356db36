/** JavaScript strings: sequences of UTF-16 code units, ordered unit by unit. */
module JsText {
  import opened Prelude
  import opened Sorting

  type CodeUnit = n: int | 0 <= n < 0x10000
  type JsString = seq<CodeUnit>

  ghost predicate IsAscii(s: string) {
    forall i :: 0 <= i < |s| ==> s[i] < 128 as char
  }

  /** The JavaScript string of an ASCII literal. */
  function Text(s: string): (r: JsString)
    requires IsAscii(s)
    ensures |r| == |s| && forall i :: 0 <= i < |s| ==> r[i] == s[i] as int
  {
    seq(|s|, i requires 0 <= i < |s| => s[i] as int)
  }

  /** A natural number as JavaScript prints it (below 10^21). */
  function Decimal(n: nat): (r: JsString)
    ensures r != [] && forall u :: u in r ==> 48 <= u <= 57
  {
    if n < 10 then [48 + n] else Decimal(n / 10) + [48 + n % 10]
  }

  /** `left <= right` on strings. */
  predicate Leq(left: JsString, right: JsString) {
    left == [] || (right != [] && (left[0] < right[0] || (left[0] == right[0] && Leq(left[1..], right[1..]))))
  }

  lemma {:induction false} LeqTotal(a: JsString, b: JsString)
    ensures Leq(a, b) || Leq(b, a)
  {
    if a != [] && b != [] && a[0] == b[0] { LeqTotal(a[1..], b[1..]); }
  }

  lemma {:induction false} LeqTransitive(a: JsString, b: JsString, c: JsString)
    requires Leq(a, b) && Leq(b, c)
    ensures Leq(a, c)
  {
    if a != [] && b != [] && c != [] && a[0] == b[0] == c[0] { LeqTransitive(a[1..], b[1..], c[1..]); }
  }

  lemma {:induction false} LeqAntisymmetric(a: JsString, b: JsString)
    requires Leq(a, b) && Leq(b, a)
    ensures a == b
  {
    if a != [] {
      LeqAntisymmetric(a[1..], b[1..]);
      assert a == [a[0]] + a[1..] && b == [b[0]] + b[1..];
    }
  }

  lemma LeqIsOrder()
    ensures IsTotal(Leq) && IsTransitive(Leq) && IsAntisymmetric(Leq)
  {
    forall a: JsString, b: JsString ensures Leq(a, b) || Leq(b, a) { LeqTotal(a, b); }
    forall a: JsString, b: JsString, c: JsString | Leq(a, b) && Leq(b, c) ensures Leq(a, c) { LeqTransitive(a, b, c); }
    forall a: JsString, b: JsString | Leq(a, b) && Leq(b, a) ensures a == b { LeqAntisymmetric(a, b); }
  }

  /** The strings agree before position i, and there the left one ends or has the smaller code unit. */
  ghost predicate PrecedesAt(left: JsString, right: JsString, i: nat) {
    i <= |left| && i <= |right| && left[..i] == right[..i] && (i == |left| || (i < |right| && left[i] < right[i]))
  }

  lemma SameHead(left: JsString, right: JsString, i: nat)
    requires PrecedesAt(left, right, i) && i > 0
    ensures left != [] && right != [] && left[0] == right[0]
  {
    assert left[..i][0] == left[0] && right[..i][0] == right[0];
  }

  /** The order of strings is lexicographic by code units. */
  lemma {:induction false} LeqIsLexicographic(left: JsString, right: JsString)
    ensures Leq(left, right) <==> exists i: nat :: PrecedesAt(left, right, i)
  {
    if left == [] {
      assert PrecedesAt(left, right, 0);
    } else if right != [] && left[0] == right[0] {
      LeqIsLexicographic(left[1..], right[1..]);
      assert left == [left[0]] + left[1..] && right == [right[0]] + right[1..];
      if Leq(left[1..], right[1..]) {
        var i: nat :| PrecedesAt(left[1..], right[1..], i);
        assert left[..i + 1] == [left[0]] + left[1..][..i] && right[..i + 1] == [right[0]] + right[1..][..i];
        assert PrecedesAt(left, right, i + 1);
      }
      if exists i: nat :: PrecedesAt(left, right, i) {
        var i: nat :| PrecedesAt(left, right, i);
        assert i > 0;
        assert left[1..][..i - 1] == left[..i][1..] && right[1..][..i - 1] == right[..i][1..];
        assert PrecedesAt(left[1..], right[1..], i - 1);
      }
    } else {
      if exists i: nat :: PrecedesAt(left, right, i) {
        var i: nat :| PrecedesAt(left, right, i);
        if i > 0 { SameHead(left, right, i); }
      }
      if Leq(left, right) { assert PrecedesAt(left, right, 0); }
    }
  }

  // ------------------------------------------------------- sorted listings

  ghost predicate StrictlySorted(keys: seq<JsString>) {
    forall i, j :: 0 <= i < j < |keys| ==> keys[i] != keys[j] && Leq(keys[i], keys[j])
  }

  lemma FirstIsLeast(a: seq<JsString>, b: seq<JsString>)
    requires a != [] && b != [] && StrictlySorted(a) && forall k :: k in b ==> k in a
    ensures Leq(a[0], b[0])
  {
    assert b[0] in a;
    var i :| 0 <= i < |a| && a[i] == b[0];
    if i == 0 { LeqTotal(a[0], a[0]); }
  }

  lemma InTail(a: seq<JsString>, k: JsString)
    requires a != [] && StrictlySorted(a)
    ensures k in a[1..] <==> k in a && k != a[0]
  {
    if k in a && k != a[0] {
      var i :| 0 <= i < |a| && a[i] == k;
      assert a[1..][i - 1] == k;
    }
  }

  /** A set of keys has one strictly sorted listing. */
  lemma {:induction false} SortedKeysUnique(a: seq<JsString>, b: seq<JsString>)
    requires StrictlySorted(a) && StrictlySorted(b) && forall k :: k in a <==> k in b
    ensures a == b
  {
    assert a != [] ==> a[0] in b;
    assert b != [] ==> b[0] in a;
    if a != [] && b != [] {
      FirstIsLeast(a, b);
      FirstIsLeast(b, a);
      LeqAntisymmetric(a[0], b[0]);
      forall k ensures k in a[1..] <==> k in b[1..] {
        InTail(a, k);
        InTail(b, k);
      }
      SortedKeysUnique(a[1..], b[1..]);
      assert a == [a[0]] + a[1..] && b == [b[0]] + b[1..];
    }
  }

  /** Sorting distinct strings lists each once, ascending. */
  lemma SortedKeys(keys: seq<JsString>)
    requires Distinct(keys)
    ensures StrictlySorted(Sort(Leq, keys))
  {
    LeqIsOrder();
    SortSorts(Leq, keys);
    SortKeepsDistinct(Leq, keys);
  }
}

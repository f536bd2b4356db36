/**
 * Normalised JSON data and its text. Members stand in the order in which they
 * were assigned; JSON.stringify lists array-index keys first, ascending
 * (ECMA-262, section 10.1.11.1).
 */
module JsonTrees {
  import opened Prelude
  import opened JsText
  import opened Sorting
  import opened JsonText

  predicate IsNumberUnit(u: CodeUnit) {
    48 <= u <= 57 || u == 43 || u == 45 || u == 46 || u == 101
  }

  function DigitRun(s: JsString): (n: nat)
    ensures n <= |s|
  {
    if s != [] && 48 <= s[0] <= 57 then 1 + DigitRun(s[1..]) else 0
  }

  /** `exp`, or nothing, in section 6 of RFC 8259. */
  predicate IsExponent(s: JsString) {
    s == [] || ((s[0] == 101 || s[0] == 69) &&
                var digits := if |s| > 1 && (s[1] == 43 || s[1] == 45) then s[2..] else s[1..];
                digits != [] && DigitRun(digits) == |digits|)
  }

  /** `frac`, or nothing, and then `exp`. */
  predicate IsFraction(s: JsString) {
    if s != [] && s[0] == 46 then DigitRun(s[1..]) > 0 && IsExponent(s[1 + DigitRun(s[1..])..]) else IsExponent(s)
  }

  /** `number` in section 6 of RFC 8259. */
  predicate IsNumber(s: JsString) {
    var magnitude := if s != [] && s[0] == 45 then s[1..] else s;
    var n := DigitRun(magnitude);
    n > 0 && (magnitude[0] == 48 ==> n == 1) && IsFraction(magnitude[n..])
  }

  /** A number as Number::toString prints it: a JSON number, with a small `e` in an exponent. */
  ghost predicate IsNumberText(s: JsString) {
    IsNumber(s) && s != [] && (48 <= s[0] <= 57 || s[0] == 45) && forall u :: u in s ==> IsNumberUnit(u)
  }

  /** A finite number other than -0 is determined by the text it prints as. */
  type NumberText = s: JsString | IsNumberText(s) ghost witness [48]

  datatype Member = Member(key: JsString, value: Tree)

  /** `hidden` is what was assigned to `__proto__`: it is never an own member. */
  datatype Tree =
    | Null
    | Bool(value: bool)
    | Number(text: NumberText)
    | String(units: JsString)
    | Array(items: seq<Tree>)
    | Object(members: seq<Member>, hidden: Option<Tree>)

  // ---------------------------------------------------------- member listing

  predicate IsDigits(s: JsString) {
    s == [] || (48 <= s[0] <= 57 && IsDigits(s[1..]))
  }

  function DecimalValue(s: JsString): nat
    requires IsDigits(s)
    decreases |s|
  {
    if s == [] then 0 else
      DigitsOfPrefix(s);
      10 * DecimalValue(s[..|s| - 1]) + (s[|s| - 1] - 48)
  }

  lemma {:induction false} DigitsOfPrefix(s: JsString)
    requires IsDigits(s) && s != []
    ensures IsDigits(s[..|s| - 1]) && 48 <= s[|s| - 1] <= 57
  {
    if |s| > 1 {
      DigitsOfPrefix(s[1..]);
      assert s[..|s| - 1][1..] == s[1..][..|s| - 2];
    }
  }

  /** Canonical decimal of an integer below 2^32 - 1. */
  predicate IsArrayIndex(s: JsString) {
    s != [] && IsDigits(s) && (s[0] == 48 ==> |s| == 1) && DecimalValue(s) < 0xFFFFFFFF
  }

  function IndexValue(s: JsString): nat {
    if IsArrayIndex(s) then DecimalValue(s) else 0
  }

  predicate IndexLeq(a: Member, b: Member) {
    IndexValue(a.key) <= IndexValue(b.key)
  }

  function Select(members: seq<Member>, indexes: bool): (r: seq<Member>)
    ensures forall m :: m in r <==> m in members && IsArrayIndex(m.key) == indexes
  {
    if members == [] then []
    else (if IsArrayIndex(members[0].key) == indexes then [members[0]] else []) + Select(members[1..], indexes)
  }

  /** The members of an object in the order of OrdinaryOwnPropertyKeys. */
  function Listed(created: seq<Member>): (r: seq<Member>)
    ensures forall m :: m in r <==> m in created
  {
    var indexes := Select(created, true);
    var sorted := Sort(IndexLeq, indexes);
    assert forall m :: m in sorted <==> m in multiset(sorted);
    assert forall m :: m in indexes <==> m in multiset(indexes);
    sorted + Select(created, false)
  }

  /** Array-index keys come first and ascend; the other members keep their order. */
  lemma ListingOrder(created: seq<Member>)
    ensures exists n :: 0 <= n <= |Listed(created)| && SplitsAt(created, Listed(created), n)
  {
    var indexes := Select(created, true);
    var sorted := Sort(IndexLeq, indexes);
    SortSorts(IndexLeq, indexes);
    var listing := Listed(created);
    assert listing == sorted + Select(created, false);
    forall i | 0 <= i < |sorted| ensures IsArrayIndex(sorted[i].key) {
      assert sorted[i] in multiset(sorted);
      assert sorted[i] in indexes;
    }
    assert listing[|sorted|..] == Select(created, false);
    assert SplitsAt(created, listing, |sorted|);
  }

  ghost predicate SplitsAt(created: seq<Member>, listing: seq<Member>, n: nat)
    requires n <= |listing|
  {
    && (forall i :: 0 <= i < n ==> IsArrayIndex(listing[i].key))
    && (forall i, j :: 0 <= i < j < n ==> IndexValue(listing[i].key) <= IndexValue(listing[j].key))
    && listing[n..] == Select(created, false)
  }

  // ------------------------------------------------------------ same own data

  /** Equal data as far as own members show it. */
  ghost predicate SameData(a: Tree, b: Tree) {
    match a
    case Array(items) =>
      b.Array? && |items| == |b.items| && forall i | 0 <= i < |items| :: SameData(items[i], b.items[i])
    case Object(members, _) =>
      && b.Object?
      && |Listed(members)| == |Listed(b.members)|
      && forall i | 0 <= i < |Listed(members)| ::
           var m := Listed(members)[i];
           assert m in members;
           m.key == Listed(b.members)[i].key && SameData(m.value, Listed(b.members)[i].value)
    case _ => a == b
  }

  // --------------------------------------------------------------- printing

  /** JSON.stringify without indentation. */
  function Print(t: Tree): JsString
    decreases t, 1, 0
  {
    match t
    case Null => Text("null")
    case Bool(b) => if b then Text("true") else Text("false")
    case Number(s) => s
    case String(s) => Quote(s)
    case Array(items) => [OPEN_ARRAY] + ItemsFrom(t, 0)
    case Object(members, _) => [OPEN_OBJECT] + MembersFrom(t, Listed(members), 0)
  }

  /** The elements from position i on, and the closing bracket. */
  function ItemsFrom(t: Tree, i: nat): JsString
    requires t.Array? && i <= |t.items|
    decreases t, 0, |t.items| - i
  {
    if i == |t.items| then [CLOSE_ARRAY]
    else Separator(i) + (Print(t.items[i]) + ItemsFrom(t, i + 1))
  }

  /** The members from position i of the listing on, and the closing brace. */
  function MembersFrom(t: Tree, listing: seq<Member>, i: nat): JsString
    requires t.Object? && i <= |listing| && forall m :: m in listing ==> m in t.members
    decreases t, 0, |listing| - i
  {
    if i == |listing| then [CLOSE_OBJECT]
    else
      assert listing[i] in t.members;
      Separator(i) + (Quote(listing[i].key) + ([COLON] + (Print(listing[i].value) + MembersFrom(t, listing, i + 1))))
  }

  function Separator(i: nat): JsString {
    if i == 0 then [] else [COMMA]
  }
}

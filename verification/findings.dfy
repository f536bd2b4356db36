/** The capped finding sink of Atlas Check, its ordering and its verdict. */
module Findings {
  import opened Prelude
  import opened JsText
  import opened Sorting

  datatype Severity = Error | Warning | Notice

  datatype Finding = Finding(
    ruleId: JsString, severity: Severity, message: JsString, path: Option<JsString>, line: Option<nat>,
    column: Option<nat>, suggestion: Option<JsString>)

  const MAX_FINDINGS: nat := 1_000
  const MAX_TEXT: nat := 4_000
  const LIMIT_003: JsString := Text("ORATLAS-LIMIT-003")

  /** Messages and suggestions are prose: a function of the rule and of the parts it interpolates. */
  datatype Wording = Wording(
    message: (JsString, seq<JsString>) -> JsString, suggestion: (JsString, seq<JsString>) -> Option<JsString>)

  // -------------------------------------------------------------- clean text

  /** Control characters other than tab, line feed and carriage return. */
  predicate IsControl(u: CodeUnit) {
    u <= 8 || u == 11 || u == 12 || 14 <= u <= 31 || u == 127
  }

  function WithoutControls(s: JsString): (r: JsString)
    ensures forall u :: u in r <==> u in s && !IsControl(u)
  {
    if s == [] then [] else (if IsControl(s[0]) then [] else [s[0]]) + WithoutControls(s[1..])
  }

  function CleanText(s: JsString): JsString {
    var kept := WithoutControls(s);
    if |kept| > MAX_TEXT then kept[..MAX_TEXT] else kept
  }

  lemma {:induction false} NothingToRemove(s: JsString)
    requires forall u :: u in s ==> !IsControl(u)
    ensures WithoutControls(s) == s
  {
    if s != [] {
      NothingToRemove(s[1..]);
      assert s == [s[0]] + s[1..];
    }
  }

  /** Cleaned text holds no control character, is bounded, and is not changed by cleaning again. */
  lemma CleanTextIsClean(s: JsString)
    ensures |CleanText(s)| <= MAX_TEXT
    ensures forall u :: u in CleanText(s) ==> u in s && !IsControl(u)
    ensures CleanText(CleanText(s)) == CleanText(s)
  {
    NothingToRemove(CleanText(s));
  }

  /** The positions from n on of what cleaning keeps, ascending: all but the control characters. */
  ghost function KeptFrom(s: JsString, n: nat): (r: seq<nat>)
    requires n <= |s|
    ensures forall k :: 0 <= k < |r| ==> n <= r[k] < |s| && !IsControl(s[r[k]])
    ensures forall i: nat :: n <= i < |s| && !IsControl(s[i]) ==> i in r
    ensures forall j, k :: 0 <= j < k < |r| ==> r[j] < r[k]
    decreases |s| - n
  {
    if n == |s| then []
    else if IsControl(s[n]) then KeptFrom(s, n + 1)
    else [n] + KeptFrom(s, n + 1)
  }

  /** Which characters are taken out. */
  lemma ControlsAre(u: CodeUnit)
    ensures IsControl(u) <==> u in {
      0, 1, 2, 3, 4, 5, 6, 7, 8, 11, 12, 14, 15, 16, 17, 18, 19, 20, 21, 22, 23, 24, 25, 26, 27, 28, 29, 30, 31, 127}
  {
  }

  /** The text consists of the units at those positions. */
  ghost predicate Picks(text: JsString, s: JsString, at: seq<nat>) {
    |text| == |at| && forall k :: 0 <= k < |at| ==> at[k] < |s| && text[k] == s[at[k]]
  }

  lemma PicksMore(text: JsString, s: JsString, at: seq<nat>, n: nat, more: bool)
    requires Picks(text, s, at) && n < |s|
    ensures Picks((if more then [s[n]] else []) + text, s, (if more then [n] else []) + at)
  {
  }

  lemma {:induction false} KeptIs(s: JsString, n: nat)
    requires n <= |s|
    ensures Picks(WithoutControls(s[n..]), s, KeptFrom(s, n))
    decreases |s| - n
  {
    if n < |s| {
      KeptIs(s, n + 1);
      assert s[n..][1..] == s[n + 1..];
      PicksMore(WithoutControls(s[n + 1..]), s, KeptFrom(s, n + 1), n, !IsControl(s[n]));
    }
  }

  /** Cleaning keeps the first 4,000 units that are not control characters, in order. */
  lemma CleanTextIsExact(s: JsString)
    ensures var kept := KeptFrom(s, 0);
      && |CleanText(s)| == (if |kept| <= 4_000 then |kept| else 4_000)
      && forall k :: 0 <= k < |CleanText(s)| ==> CleanText(s)[k] == s[kept[k]]
  {
    KeptIs(s, 0);
    assert s[0..] == s;
  }

  /** An empty suggestion is dropped. */
  function Cleaned(f: Finding): Finding {
    f.(message := CleanText(f.message),
       suggestion := if f.suggestion.Some? && f.suggestion.value != [] then Some(CleanText(f.suggestion.value)) else None)
  }

  // ---------------------------------------------------------------- ordering

  function Rank(s: Severity): int {
    match s case Error => 0 case Warning => 1 case Notice => 2
  }

  function CompareText(left: JsString, right: JsString): int {
    if left == right then 0 else if Leq(left, right) then -1 else 1
  }

  /** JavaScript's `||` on comparison results. */
  function Or(first: int, second: int): int {
    if first != 0 then first else second
  }

  /** What findings are compared by. */
  datatype SortKey = SortKey(rank: int, path: JsString, line: nat, ruleId: JsString, message: JsString)

  function KeyOf(f: Finding): SortKey {
    SortKey(Rank(f.severity), f.path.GetOr([]), f.line.GetOr(0), f.ruleId, f.message)
  }

  function CompareKeys(l: SortKey, r: SortKey): int {
    Or(l.rank - r.rank,
    Or(CompareText(l.path, r.path),
    Or(l.line - r.line,
    Or(CompareText(l.ruleId, r.ruleId), CompareText(l.message, r.message)))))
  }

  predicate KeyLeq(l: SortKey, r: SortKey) {
    CompareKeys(l, r) <= 0
  }

  predicate FindingLeq(l: Finding, r: Finding) {
    KeyLeq(KeyOf(l), KeyOf(r))
  }

  /** Comparing a with b, b with c and a with c is consistent. */
  predicate Consistent(ab: int, bc: int, ac: int) {
    ab <= 0 && bc <= 0 ==> ac <= 0 && (ac == 0 <==> ab == 0 && bc == 0)
  }

  lemma TextConsistent(a: JsString, b: JsString, c: JsString)
    ensures Consistent(CompareText(a, b), CompareText(b, c), CompareText(a, c))
  {
    if Leq(a, b) && Leq(b, c) {
      LeqTransitive(a, b, c);
      if Leq(c, a) { LeqAntisymmetric(a, c); }
      if a == c { LeqAntisymmetric(a, b); }
    }
  }

  lemma KeysConsistent(a: SortKey, b: SortKey, c: SortKey)
    ensures Consistent(CompareKeys(a, b), CompareKeys(b, c), CompareKeys(a, c))
  {
    TextConsistent(a.message, b.message, c.message);
    TextConsistent(a.ruleId, b.ruleId, c.ruleId);
    TextConsistent(a.path, b.path, c.path);
  }

  /** The five-part comparison is a linear order on keys. */
  lemma KeyLeqIsOrder()
    ensures IsTotal(KeyLeq) && IsTransitive(KeyLeq) && IsAntisymmetric(KeyLeq)
  {
    forall a, b ensures KeyLeq(a, b) || KeyLeq(b, a) { KeysTotal(a, b); }
    forall a, b, c | KeyLeq(a, b) && KeyLeq(b, c) ensures KeyLeq(a, c) { KeysConsistent(a, b, c); }
    forall a, b | KeyLeq(a, b) && KeyLeq(b, a) ensures a == b { KeysAntisymmetric(a, b); }
  }

  lemma KeysTotal(a: SortKey, b: SortKey)
    ensures KeyLeq(a, b) || KeyLeq(b, a)
  {
    LeqTotal(a.path, b.path);
    LeqTotal(a.ruleId, b.ruleId);
    LeqTotal(a.message, b.message);
  }

  lemma KeysAntisymmetric(a: SortKey, b: SortKey)
    requires KeyLeq(a, b) && KeyLeq(b, a)
    ensures a == b
  {
    KeysConsistent(a, b, a);
    assert CompareKeys(a, b) == 0;
  }

  lemma FindingLeqIsOrder()
    ensures IsTotal(FindingLeq) && IsTransitive(FindingLeq)
    ensures IsByKey(FindingLeq, KeyOf, KeyLeq)
  {
    KeyLeqIsOrder();
  }

  ghost predicate TextBefore(a: JsString, b: JsString) {
    a != b && exists i: nat :: PrecedesAt(a, b, i)
  }

  ghost predicate SeverityBefore(a: Severity, b: Severity) {
    (a == Error && b != Error) || (a == Warning && b == Notice)
  }

  /** The order of a report: by severity, path, line, rule and message; what has no path or line comes first. */
  ghost predicate ComesBefore(l: Finding, r: Finding) {
    var (leftPath, rightPath) := (if l.path.Some? then l.path.value else [], if r.path.Some? then r.path.value else []);
    var (leftLine, rightLine) := (if l.line.Some? then l.line.value else 0, if r.line.Some? then r.line.value else 0);
    || SeverityBefore(l.severity, r.severity)
    || (l.severity == r.severity &&
        (|| TextBefore(leftPath, rightPath)
         || (leftPath == rightPath &&
             (|| leftLine < rightLine
              || (leftLine == rightLine &&
                  (|| TextBefore(l.ruleId, r.ruleId)
                   || (l.ruleId == r.ruleId && (l.message == r.message || TextBefore(l.message, r.message)))))))))
  }

  lemma CompareTextIs(a: JsString, b: JsString)
    ensures CompareText(a, b) < 0 <==> TextBefore(a, b)
    ensures CompareText(a, b) == 0 <==> a == b
  {
    LeqIsLexicographic(a, b);
  }

  /** Findings are compared in exactly that order. */
  lemma FindingLeqIs(l: Finding, r: Finding)
    ensures FindingLeq(l, r) <==> ComesBefore(l, r)
  {
    CompareTextIs(l.path.GetOr([]), r.path.GetOr([]));
    CompareTextIs(l.ruleId, r.ruleId);
    CompareTextIs(l.message, r.message);
  }

  // -------------------------------------------------------------------- sink

  /** What a sink keeps of everything added to it. */
  function Kept(added: seq<Finding>): (r: seq<Finding>)
    ensures |r| == if |added| < MAX_FINDINGS then |added| else MAX_FINDINGS - 1
    ensures forall i :: 0 <= i < |r| ==> r[i] == Cleaned(added[i])
  {
    var n := if |added| < MAX_FINDINGS then |added| else MAX_FINDINGS - 1;
    seq(n, i requires 0 <= i < n => Cleaned(added[i]))
  }

  function Omitted(added: seq<Finding>): nat {
    |added| - |Kept(added)|
  }

  function LimitFinding(wording: Wording, omitted: nat): Finding {
    var rule := LIMIT_003;
    var parts := [Decimal(omitted)];
    Finding(rule, Error, wording.message(rule, parts), None, None, None, wording.suggestion(rule, parts))
  }

  function Unsorted(wording: Wording, added: seq<Finding>): seq<Finding> {
    Kept(added) + if Omitted(added) > 0 then [LimitFinding(wording, Omitted(added))] else []
  }

  /** A finding as it is kept, field by field. */
  ghost predicate IsCleaned(c: Finding, f: Finding) {
    && c.ruleId == f.ruleId && c.severity == f.severity && c.path == f.path && c.line == f.line && c.column == f.column
    && c.message == CleanText(f.message)
    && c.suggestion
       == if f.suggestion.None? || f.suggestion.value == [] then None else Some(CleanText(f.suggestion.value))
  }

  /** All findings if there are fewer than 1,000, and otherwise the first 999 and the notice that counts the rest. */
  ghost predicate IsUnsorted(listed: seq<Finding>, wording: Wording, added: seq<Finding>) {
    && |listed| == (if |added| < 1_000 then |added| else 1_000)
    && (forall i :: 0 <= i < |added| && i < 999 ==> IsCleaned(listed[i], added[i]))
    && (|added| >= 1_000 ==> IsNotice(listed[999], wording, |added| - 999))
  }

  ghost predicate IsNotice(f: Finding, wording: Wording, omitted: nat) {
    && f.ruleId == Text("ORATLAS-LIMIT-003") && f.severity == Error
    && f.message == wording.message(Text("ORATLAS-LIMIT-003"), [Decimal(omitted)])
    && f.suggestion == wording.suggestion(Text("ORATLAS-LIMIT-003"), [Decimal(omitted)])
    && f.path == None && f.line == None && f.column == None
  }

  /** The report holds exactly those findings, in order. */
  ghost predicate IsReport(report: seq<Finding>, wording: Wording, added: seq<Finding>) {
    && (forall i, j :: 0 <= i < j < |report| ==> ComesBefore(report[i], report[j]))
    && exists listed :: IsUnsorted(listed, wording, added) && multiset(report) == multiset(listed)
  }

  lemma UnsortedIs(wording: Wording, added: seq<Finding>)
    ensures IsUnsorted(Unsorted(wording, added), wording, added)
  {
  }

  lemma SortedByOrder(listed: seq<Finding>)
    ensures var report := Sort(FindingLeq, listed);
      forall i, j :: 0 <= i < j < |report| ==> ComesBefore(report[i], report[j])
  {
    var report := Sort(FindingLeq, listed);
    FindingLeqIsOrder();
    SortSorts(FindingLeq, listed);
    forall i, j | 0 <= i < j < |report| ensures ComesBefore(report[i], report[j]) {
      FindingLeqIs(report[i], report[j]);
    }
  }

  lemma SortedIsReport(wording: Wording, added: seq<Finding>)
    ensures IsReport(Sort(FindingLeq, Unsorted(wording, added)), wording, added)
  {
    UnsortedIs(wording, added);
    SortedByOrder(Unsorted(wording, added));
  }

  class FindingSink {
    const wording: Wording
    var findings: seq<Finding>
    var omitted: nat
    /** Everything passed to Add. */
    ghost var added: seq<Finding>

    ghost predicate Valid()
      reads this
    {
      findings == Kept(added) && omitted == Omitted(added)
    }

    constructor (wording: Wording)
      ensures Valid() && added == [] && this.wording == wording
    {
      this.wording := wording;
      findings, omitted, added := [], 0, [];
    }

    method Add(finding: Finding)
      requires Valid()
      modifies this
      ensures Valid() && added == old(added) + [finding]
      ensures |findings| + omitted == |added|
    {
      added := added + [finding];
      if |findings| >= MAX_FINDINGS - 1 {
        omitted := omitted + 1;
      } else {
        findings := findings + [Cleaned(finding)];
      }
    }

    method Finish() returns (report: seq<Finding>)
      requires Valid()
      modifies this`findings
      ensures report == findings == Sort(FindingLeq, Unsorted(wording, added))
      ensures IsReport(report, wording, added)
      ensures unchanged(this`omitted, this`added)
    {
      if omitted > 0 {
        findings := findings + [LimitFinding(wording, omitted)];
      }
      assert findings == Unsorted(wording, added);
      findings := Sort(FindingLeq, findings);
      SortedIsReport(wording, added);
      return findings;
    }
  }

  // ------------------------------------------------------------------ verdict

  function Count(findings: seq<Finding>, severity: Severity): nat {
    if findings == [] then 0
    else (if findings[0].severity == severity then 1 else 0) + Count(findings[1..], severity)
  }

  /** `passed: errors === 0` */
  predicate Passed(report: seq<Finding>) {
    Count(report, Error) == 0
  }

  ghost predicate ErrorFree(findings: seq<Finding>) {
    forall f :: f in findings ==> f.severity != Error
  }

  lemma {:induction false} CountErrors(findings: seq<Finding>)
    ensures Count(findings, Error) == 0 <==> ErrorFree(findings)
  {
    if findings != [] {
      CountErrors(findings[1..]);
      assert findings == [findings[0]] + findings[1..];
    }
  }

  lemma {:induction false} CountsAddUp(findings: seq<Finding>)
    ensures Count(findings, Error) + Count(findings, Warning) + Count(findings, Notice) == |findings|
  {
    if findings != [] { CountsAddUp(findings[1..]); }
  }

  /** The report is bounded, sorted, and lists exactly what was kept, plus the notice of what was not. */
  lemma ReportIsBoundedAndSorted(wording: Wording, added: seq<Finding>)
    ensures var report := Sort(FindingLeq, Unsorted(wording, added));
            && |report| <= MAX_FINDINGS
            && Sorted(FindingLeq, report)
            && multiset(report) == multiset(Unsorted(wording, added))
    ensures |Kept(added)| + Omitted(added) == |added|
  {
    FindingLeqIsOrder();
    SortSorts(FindingLeq, Unsorted(wording, added));
  }

  /**
   * The sequence of sort keys of a report depends only on which findings were
   * kept and how many were not, and where keys tell the kept findings apart, so
   * does the whole report. Findings with equal keys stand in the order they were
   * added in.
   */
  lemma ReportIgnoresOrder(wording: Wording, a: seq<Finding>, b: seq<Finding>)
    requires multiset(Kept(a)) == multiset(Kept(b)) && Omitted(a) == Omitted(b)
    ensures var s, t := Unsorted(wording, a), Unsorted(wording, b);
            && Mapped(KeyOf, Sort(FindingLeq, s)) == Mapped(KeyOf, Sort(FindingLeq, t))
            && (KeysDetermine(s) ==> Sort(FindingLeq, s) == Sort(FindingLeq, t))
            && forall k :: WithKey(KeyOf, k, Sort(FindingLeq, s)) == WithKey(KeyOf, k, s)
  {
    var s, t := Unsorted(wording, a), Unsorted(wording, b);
    KeyLeqIsOrder();
    FindingLeqIsOrder();
    SortedKeysIgnoreOrder(FindingLeq, KeyOf, KeyLeq, s, t);
    if KeysDetermine(s) { SortIgnoresOrder(FindingLeq, s, t); }
    forall k ensures WithKey(KeyOf, k, Sort(FindingLeq, s)) == WithKey(KeyOf, k, s) {
      SortIsStable(FindingLeq, KeyOf, KeyLeq, s, k);
    }
  }

  ghost predicate KeysDetermine(s: seq<Finding>) {
    forall f, g :: f in s && g in s && KeyOf(f) == KeyOf(g) ==> f == g
  }

  /** A run passes exactly when nothing added was an error and the cap was not reached. */
  lemma PassesExactly(wording: Wording, added: seq<Finding>)
    ensures Passed(Sort(FindingLeq, Unsorted(wording, added))) <==> ErrorFree(added) && |added| < MAX_FINDINGS
  {
    var unsorted := Unsorted(wording, added);
    var report := Sort(FindingLeq, unsorted);
    CountErrors(report);
    forall f ensures f in report <==> f in unsorted {
      assert f in report <==> f in multiset(report);
      assert f in unsorted <==> f in multiset(unsorted);
    }
    if |added| >= MAX_FINDINGS {
      var last := LimitFinding(wording, Omitted(added));
      assert last in unsorted;
    } else {
      assert unsorted == Kept(added);
      forall i | 0 <= i < |added| ensures Kept(added)[i] in unsorted && Kept(added)[i].severity == added[i].severity {}
      if ErrorFree(report) {
        forall f | f in added ensures f.severity != Error {
          var i :| 0 <= i < |added| && added[i] == f;
          assert Kept(added)[i] in report;
        }
      }
      if ErrorFree(added) {
        forall f | f in report ensures f.severity != Error {
          var i :| 0 <= i < |unsorted| && unsorted[i] == f;
          assert added[i] in added;
        }
      }
    }
  }
}

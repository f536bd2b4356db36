/** The GitHub report: one annotation per line, and a reader that recovers every finding from it. */
module GithubReport {
  import opened Prelude
  import opened JsText
  import opened JsSplit
  import opened Findings
  import opened Annotations
  import Jsonl

  const FILE: JsString := Text("file")
  const LINE: JsString := Text("line")
  const COL: JsString := Text("col")
  const TITLE: JsString := Text("title")
  const MARK: JsString := [COLON, COLON]
  const FIX: JsString := Text(" Suggested fix: ")
  const ERROR: JsString := Text("error")
  const WARNING: JsString := Text("warning")
  const NOTICE: JsString := Text("notice")

  // --------------------------------------------------------------- rendering

  function SeverityText(s: Severity): JsString {
    match s case Error => ERROR case Warning => WARNING case Notice => NOTICE
  }

  function Message(f: Finding): JsString {
    if f.suggestion.Some? && f.suggestion.value != [] then f.message + FIX + f.suggestion.value else f.message
  }

  function Property(name: JsString, value: JsString): JsString {
    name + ([EQUALS] + value)
  }

  predicate HasPath(f: Finding) { f.path.Some? && f.path.value != [] }

  predicate HasNumber(n: Option<nat>) { n.Some? && n.value != 0 }

  function Properties(f: Finding): (r: seq<JsString>)
    ensures |r| > 0
  {
    (if HasPath(f) then [Property(FILE, EscapeProperty(f.path.value))] else [])
    + (if HasNumber(f.line) then [Property(LINE, Decimal(f.line.value))] else [])
    + (if HasNumber(f.column) then [Property(COL, Decimal(f.column.value))] else [])
    + [Property(TITLE, EscapeProperty(f.ruleId))]
  }

  /** `githubAnnotation` */
  function Annotation(f: Finding): JsString {
    MARK + (SeverityText(f.severity) + ([SPACE] + (Join(COMMA, Properties(f)) + (MARK + EscapeData(Message(f))))))
  }

  // ----------------------------------------------------------------- reading

  datatype Read = Read(
    severity: JsString, file: Option<JsString>, line: Option<nat>, column: Option<nat>, title: Option<JsString>,
    data: JsString)

  /** Position of the first `::`, or the length. */
  function MarkIndex(s: JsString): (i: nat)
    ensures i <= |s|
  {
    if [58, 58] <= s || s == [] then 0 else 1 + MarkIndex(s[1..])
  }

  function ReadDecimal(s: JsString): nat
    decreases |s|
  {
    if s == [] then 0
    else 10 * ReadDecimal(s[..|s| - 1]) + if 48 <= s[|s| - 1] <= 57 then s[|s| - 1] - 48 else 0
  }

  /** The value of the first property of that name. */
  function Find(pieces: seq<JsString>, name: JsString): Option<JsString> {
    if pieces == [] then None
    else if name + [61] <= pieces[0] then Some(pieces[0][|name| + 1..])
    else Find(pieces[1..], name)
  }

  function ReadProperties(severity: JsString, pieces: seq<JsString>, data: JsString): Read {
    var file, title := Find(pieces, Text("file")), Find(pieces, Text("title"));
    var line, column := Find(pieces, Text("line")), Find(pieces, Text("col"));
    Read(
      severity := severity,
      file := if file.Some? then Some(Unescape(file.value, true)) else None,
      line := if line.Some? then Some(ReadDecimal(line.value)) else None,
      column := if column.Some? then Some(ReadDecimal(column.value)) else None,
      title := if title.Some? then Some(Unescape(title.value, true)) else None,
      data := data)
  }

  /** Header up to the space, properties up to the first `::`, data after it. */
  function ReadAnnotation(text: JsString): Option<Read> {
    if !([58, 58] <= text) then None
    else
      var body := text[2..];
      var i := IndexOf(32, body);
      if i == |body| then None
      else
        var rest := body[i + 1..];
        var j := MarkIndex(rest);
        if j == |rest| || |rest| < j + 2 then None
        else Some(ReadProperties(body[..i], Split(44, rest[..j]), Unescape(rest[j + 2..], false)))
  }

  /** What a reader should get back. */
  function Expected(f: Finding): Read {
    Read(
      severity := match f.severity
                  case Error => Text("error")
                  case Warning => Text("warning")
                  case Notice => Text("notice"),
      file := if f.path == Some([]) then None else f.path,
      line := if f.line == Some(0) then None else f.line,
      column := if f.column == Some(0) then None else f.column,
      title := Some(f.ruleId),
      data := if f.suggestion.None? || f.suggestion.value == [] then f.message
              else f.message + Text(" Suggested fix: ") + f.suggestion.value)
  }

  // -------------------------------------------------------------- round trip

  lemma {:induction false} DecimalIsRead(n: nat)
    ensures ReadDecimal(Decimal(n)) == n
  {
    if n >= 10 {
      DecimalIsRead(n / 10);
      var s := Decimal(n);
      assert s[..|s| - 1] == Decimal(n / 10);
    } else {
      assert Decimal(n)[..0] == [];
    }
  }

  lemma {:induction false} MarkAfter(front: JsString, rest: JsString)
    requires COLON !in front && MARK <= rest
    ensures MarkIndex(front + rest) == |front|
  {
    if front == [] {
      assert front + rest == rest;
    } else {
      assert front[0] in front;
      assert (front + rest)[0] != COLON;
      assert (front + rest)[1..] == front[1..] + rest;
      MarkAfter(front[1..], rest);
    }
  }

  /** No unit that the format gives a meaning. */
  ghost predicate Plain(s: JsString) {
    COMMA !in s && COLON !in s && CR !in s && LF !in s
  }

  lemma EscapedIsPlain(s: JsString)
    ensures Plain(EscapeProperty(s))
    ensures CR !in EscapeData(s) && LF !in EscapeData(s)
    ensures Unescape(EscapeProperty(s), true) == s && Unescape(EscapeData(s), false) == s
  {
    ReplacementsAreOneMap(s);
    EscapedHolds(s, true);
    EscapedHolds(s, false);
    UnescapeUndoesEscape(s, true);
    UnescapeUndoesEscape(s, false);
  }

  lemma PropertyIsPlain(name: JsString, value: JsString)
    requires Plain(name) && Plain(value)
    ensures Plain(Property(name, value))
  {
  }

  lemma NamesArePlain()
    ensures Plain(FILE) && Plain(LINE) && Plain(COL) && Plain(TITLE)
    ensures FILE[0] == 102 && LINE[0] == 108 && COL[0] == 99 && TITLE[0] == 116
  {
    assert FILE == [102, 105, 108, 101] && LINE == [108, 105, 110, 101];
    assert COL == [99, 111, 108] && TITLE == [116, 105, 116, 108, 101];
  }

  lemma PropertiesArePlain(f: Finding)
    ensures forall i :: 0 <= i < |Properties(f)| ==> Plain(Properties(f)[i])
  {
    NamesArePlain();
    EscapedIsPlain(f.path.GetOr([]));
    EscapedIsPlain(f.ruleId);
    PropertyIsPlain(FILE, EscapeProperty(f.path.GetOr([])));
    PropertyIsPlain(LINE, Decimal(f.line.GetOr(0)));
    PropertyIsPlain(COL, Decimal(f.column.GetOr(0)));
    PropertyIsPlain(TITLE, EscapeProperty(f.ruleId));
  }

  lemma {:induction false} JoinIsFree(u: CodeUnit, pieces: seq<JsString>)
    requires |pieces| > 0 && u != COMMA && forall i :: 0 <= i < |pieces| ==> u !in pieces[i]
    ensures u !in Join(COMMA, pieces)
  {
    if |pieces| > 1 { JoinIsFree(u, pieces[1..]); }
  }

  lemma FindHere(pieces: seq<JsString>, name: JsString, value: JsString, rest: seq<JsString>)
    requires pieces == [Property(name, value)] + rest
    ensures Find(pieces, name) == Some(value)
  {
    var p := pieces[0];
    assert p == (name + [EQUALS]) + value;
    assert p[|name| + 1..] == value;
  }

  lemma FindLater(pieces: seq<JsString>, name: JsString, other: JsString, value: JsString, rest: seq<JsString>)
    requires pieces == [Property(other, value)] + rest && name != [] && other != [] && name[0] != other[0]
    ensures Find(pieces, name) == Find(rest, name)
  {
    assert pieces[0][0] == other[0] && (name + [EQUALS])[0] == name[0];
    assert pieces[1..] == rest;
  }

  /** The optional property at the front does not hide those behind it. */
  lemma FindPast(present: bool, other: JsString, value: JsString, rest: seq<JsString>, name: JsString)
    requires name != [] && other != []
    ensures name[0] != other[0] ==>
              Find((if present then [Property(other, value)] else []) + rest, name) == Find(rest, name)
    ensures name == other && present ==> Find([Property(other, value)] + rest, name) == Some(value)
  {
    if present {
      if name[0] != other[0] { FindLater([Property(other, value)] + rest, name, other, value, rest); }
      FindHere([Property(other, value)] + rest, other, value, rest);
    } else {
      assert [] + rest == rest;
    }
  }

  lemma PropertiesAreFound(f: Finding)
    ensures Find(Properties(f), FILE) == if HasPath(f) then Some(EscapeProperty(f.path.value)) else None
    ensures Find(Properties(f), LINE) == if HasNumber(f.line) then Some(Decimal(f.line.value)) else None
    ensures Find(Properties(f), COL) == if HasNumber(f.column) then Some(Decimal(f.column.value)) else None
    ensures Find(Properties(f), TITLE) == Some(EscapeProperty(f.ruleId))
  {
    NamesArePlain();
    var path, line, column := EscapeProperty(f.path.GetOr([])), Decimal(f.line.GetOr(0)), Decimal(f.column.GetOr(0));
    var title := Property(TITLE, EscapeProperty(f.ruleId));
    var r3 := [title];
    var r2 := (if HasNumber(f.column) then [Property(COL, column)] else []) + r3;
    var r1 := (if HasNumber(f.line) then [Property(LINE, line)] else []) + r2;
    var r0 := (if HasPath(f) then [Property(FILE, path)] else []) + r1;
    assert Properties(f) == r0;
    SearchAll(r0, r1, HasPath(f), FILE, path);
    SearchAll(r1, r2, HasNumber(f.line), LINE, line);
    SearchAll(r2, r3, HasNumber(f.column), COL, column);
    SearchAll(r3, [], true, TITLE, EscapeProperty(f.ruleId));
  }

  lemma SearchAll(all: seq<JsString>, rest: seq<JsString>, present: bool, other: JsString, value: JsString)
    requires other != [] && other in {FILE, LINE, COL, TITLE}
    requires all == (if present then [Property(other, value)] else []) + rest
    ensures present ==> Find(all, other) == Some(value)
    ensures !present ==> all == rest
    ensures forall name :: name in {FILE, LINE, COL, TITLE} && name != other ==> Find(all, name) == Find(rest, name)
  {
    NamesArePlain();
    forall name | name in {FILE, LINE, COL, TITLE} && name != other ensures Find(all, name) == Find(rest, name) {
      FindPast(present, other, value, rest, name);
    }
    FindPast(present, other, value, rest, other);
  }

  lemma TextIsRead(found: Option<JsString>, value: Option<JsString>)
    requires found == if value.Some? && value.value != [] then Some(EscapeProperty(value.value)) else None
    ensures (if found.Some? then Some(Unescape(found.value, true)) else None) == if value == Some([]) then None else value
  {
    if value.Some? { EscapedIsPlain(value.value); }
  }

  lemma NumberIsRead(found: Option<JsString>, value: Option<nat>)
    requires found == if HasNumber(value) then Some(Decimal(value.value)) else None
    ensures (if found.Some? then Some(ReadDecimal(found.value)) else None) == if value == Some(0) then None else value
  {
    if value.Some? { DecimalIsRead(value.value); }
  }

  /** Reading the properties of a finding gives its path, line, column and rule. */
  lemma PropertiesAreRead(f: Finding)
    ensures ReadProperties(SeverityText(f.severity), Properties(f), Message(f)) == Expected(f)
  {
    var pieces := Properties(f);
    PropertiesAreFound(f);
    TextIsRead(Find(pieces, FILE), f.path);
    NumberIsRead(Find(pieces, LINE), f.line);
    NumberIsRead(Find(pieces, COL), f.column);
    EscapedIsPlain(f.ruleId);
  }

  lemma SeverityHasNoSpace(s: Severity)
    ensures SPACE !in SeverityText(s) && Plain(SeverityText(s))
  {
    assert ERROR == [101, 114, 114, 111, 114];
    assert WARNING == [119, 97, 114, 110, 105, 110, 103];
    assert NOTICE == [110, 111, 116, 105, 99, 101];
  }

  /** The first `::` after the header separates the properties from the data. */
  lemma BodyIsRead(properties: JsString, data: JsString)
    requires COLON !in properties
    ensures var rest := properties + (MARK + data);
            && MarkIndex(rest) == |properties| && |rest| >= |properties| + 2
            && rest[..|properties|] == properties && rest[|properties| + 2..] == data
  {
    MarkAfter(properties, MARK + data);
  }

  lemma HeaderIsRead(severity: JsString, rest: JsString)
    requires SPACE !in severity
    ensures var text := MARK + (severity + ([SPACE] + rest));
            && MARK <= text && IndexOf(SPACE, text[2..]) == |severity| < |text[2..]|
            && text[2..][..|severity|] == severity && text[2..][|severity| + 1..] == rest
  {
    var body := severity + ([SPACE] + rest);
    IndexAfter(SPACE, severity, [SPACE] + rest);
    assert (MARK + body)[2..] == body;
  }

  lemma AnnotationIsRead(severity: JsString, pieces: seq<JsString>, data: JsString)
    requires SPACE !in severity && |pieces| > 0 && forall i :: 0 <= i < |pieces| ==> Plain(pieces[i])
    ensures ReadAnnotation(MARK + (severity + ([SPACE] + (Join(COMMA, pieces) + (MARK + data)))))
         == Some(ReadProperties(severity, pieces, Unescape(data, false)))
  {
    var properties := Join(COMMA, pieces);
    HeaderIsRead(severity, properties + (MARK + data));
    JoinIsFree(COLON, pieces);
    BodyIsRead(properties, data);
    SplitUndoesJoin(COMMA, pieces);
  }

  /** An annotation reads back as exactly the finding it was rendered from. */
  lemma AnnotationRoundTrip(f: Finding)
    ensures ReadAnnotation(Annotation(f)) == Some(Expected(f))
  {
    SeverityHasNoSpace(f.severity);
    PropertiesArePlain(f);
    AnnotationIsRead(SeverityText(f.severity), Properties(f), EscapeData(Message(f)));
    EscapedIsPlain(Message(f));
    PropertiesAreRead(f);
  }

  /** An annotation is one line. */
  lemma AnnotationIsOneLine(f: Finding)
    ensures Jsonl.IsLine(Annotation(f)) && CR !in Annotation(f)
  {
    SeverityHasNoSpace(f.severity);
    PropertiesArePlain(f);
    JoinIsFree(CR, Properties(f));
    JoinIsFree(LF, Properties(f));
    EscapedIsPlain(Message(f));
    var a := Annotation(f);
    assert CR !in a && LF !in a;
    assert a[|a| - 1] in a;
  }

  // ------------------------------------------------------------------ report

  function AnnotationLines(findings: seq<Finding>): (r: seq<JsString>)
    ensures |r| == |findings| && forall i :: 0 <= i < |r| ==> r[i] == Annotation(findings[i])
  {
    seq(|findings|, i requires 0 <= i < |findings| => Annotation(findings[i]))
  }

  const ATLAS_CHECK: JsString := Text("Atlas Check: ")
  const ERRORS: JsString := Text(" error(s), ")
  const WARNINGS: JsString := Text(" warning(s), ")
  const NOTICES: JsString := Text(" notice(s); ")
  const CHECKED: JsString := Text(" record(s) checked.")

  /** Numbers, each followed by its word. */
  function Figures(numbers: seq<nat>, words: seq<JsString>): JsString
    requires |numbers| == |words|
  {
    if numbers == [] then [] else Decimal(numbers[0]) + (words[0] + Figures(numbers[1..], words[1..]))
  }

  const WORDS: seq<JsString> := [ERRORS, WARNINGS, NOTICES, CHECKED]

  function SummaryOf(errors: nat, warnings: nat, notices: nat, recordsChecked: nat): JsString {
    ATLAS_CHECK + Figures([errors, warnings, notices, recordsChecked], WORDS)
  }

  function Summary(findings: seq<Finding>, recordsChecked: nat): JsString {
    SummaryOf(Count(findings, Error), Count(findings, Warning), Count(findings, Notice), recordsChecked)
  }

  function Report(findings: seq<Finding>, recordsChecked: nat): JsString {
    Jsonl.Joined(AnnotationLines(findings) + [Summary(findings, recordsChecked)]) + [LF]
  }

  // ------------------------------------------------------ reading the summary

  /** How many decimal digits the text starts with. */
  function LeadingDigits(s: JsString): (k: nat)
    ensures k <= |s|
  {
    if s != [] && 48 <= s[0] <= 57 then 1 + LeadingDigits(s[1..]) else 0
  }

  /** A number followed by a word, and what comes after them. */
  function ReadFigure(s: JsString, word: JsString): Option<(nat, JsString)> {
    var k := LeadingDigits(s);
    if word <= s[k..] then Some((ReadDecimal(s[..k]), s[k..][|word|..])) else None
  }

  /** Numbers with those words after them, up to the end. */
  function ReadFigures(s: JsString, words: seq<JsString>): Option<seq<nat>> {
    if words == [] then if s == [] then Some([]) else None
    else
      match ReadFigure(s, words[0])
      case None => None
      case Some((n, rest)) =>
        match ReadFigures(rest, words[1..])
        case None => None
        case Some(more) => Some([n] + more)
  }

  /** The four figures of a summary line. */
  function ReadSummary(s: JsString): Option<seq<nat>> {
    if ATLAS_CHECK <= s then ReadFigures(s[|ATLAS_CHECK|..], WORDS) else None
  }

  lemma {:induction false} DigitsLead(digits: JsString, rest: JsString)
    requires forall i :: 0 <= i < |digits| ==> 48 <= digits[i] <= 57
    requires rest != [] && !(48 <= rest[0] <= 57)
    ensures LeadingDigits(digits + rest) == |digits|
  {
    if digits == [] {
      assert digits + rest == rest;
    } else {
      assert (digits + rest)[1..] == digits[1..] + rest;
      DigitsLead(digits[1..], rest);
    }
  }

  lemma FigureIsRead(n: nat, word: JsString, rest: JsString)
    requires word != [] && !(48 <= word[0] <= 57)
    ensures ReadFigure(Decimal(n) + (word + rest), word) == Some((n, rest))
  {
    assert forall i :: 0 <= i < |Decimal(n)| ==> Decimal(n)[i] in Decimal(n);
    DigitsLead(Decimal(n), word + rest);
    DecimalIsRead(n);
    var s := Decimal(n) + (word + rest);
    assert s[..|Decimal(n)|] == Decimal(n) && s[|Decimal(n)|..] == word + rest;
    assert (word + rest)[|word|..] == rest;
  }

  /** A word that does not start with a digit. */
  ghost predicate EndsNumber(word: JsString) {
    word != [] && !(48 <= word[0] <= 57)
  }

  lemma {:induction false} FiguresAreRead(numbers: seq<nat>, words: seq<JsString>)
    requires |numbers| == |words| && forall i :: 0 <= i < |words| ==> EndsNumber(words[i])
    ensures ReadFigures(Figures(numbers, words), words) == Some(numbers)
  {
    if numbers != [] {
      FigureIsRead(numbers[0], words[0], Figures(numbers[1..], words[1..]));
      FiguresAreRead(numbers[1..], words[1..]);
      assert [numbers[0]] + numbers[1..] == numbers;
    }
  }

  lemma {:induction false} FiguresAreOneLine(numbers: seq<nat>, words: seq<JsString>)
    requires |numbers| == |words| && forall i :: 0 <= i < |words| ==> words[i] != [] && Jsonl.IsLine(words[i])
    ensures Jsonl.IsLine(Figures(numbers, words))
  {
    if numbers != [] {
      FiguresAreOneLine(numbers[1..], words[1..]);
      var tail, s := Figures(numbers[1..], words[1..]), Figures(numbers, words);
      assert s[|s| - 1] == if tail == [] then words[0][|words[0]| - 1] else tail[|tail| - 1];
    }
  }

  /** The words, unit by unit. */
  lemma WordsAre()
    ensures ATLAS_CHECK == [65, 116, 108, 97, 115, 32, 67, 104, 101, 99, 107, 58, 32]
    ensures ERRORS == [32, 101, 114, 114, 111, 114, 40, 115, 41, 44, 32]
    ensures WARNINGS == [32, 119, 97, 114, 110, 105, 110, 103, 40, 115, 41, 44, 32]
    ensures NOTICES == [32, 110, 111, 116, 105, 99, 101, 40, 115, 41, 59, 32]
    ensures CHECKED == [32, 114, 101, 99, 111, 114, 100, 40, 115, 41, 32, 99, 104, 101, 99, 107, 101, 100, 46]
  {
  }

  lemma WordsEndNumbers()
    ensures forall i :: 0 <= i < |WORDS| ==> EndsNumber(WORDS[i]) && Jsonl.IsLine(WORDS[i])
    ensures Jsonl.IsLine(ATLAS_CHECK)
  {
    WordsAre();
  }

  /** The figures stand in the summary line in this order. */
  lemma SummaryIsRead(errors: nat, warnings: nat, notices: nat, recordsChecked: nat)
    ensures ReadSummary(SummaryOf(errors, warnings, notices, recordsChecked))
         == Some([errors, warnings, notices, recordsChecked])
  {
    WordsEndNumbers();
    var numbers := [errors, warnings, notices, recordsChecked];
    FiguresAreRead(numbers, WORDS);
    TakesOff(ATLAS_CHECK, Figures(numbers, WORDS));
  }

  lemma TakesOff(front: JsString, rest: JsString)
    ensures front <= front + rest && (front + rest)[|front|..] == rest
  {
  }

  /** Positions of the findings of a severity. */
  ghost function Of(findings: seq<Finding>, severity: Severity): set<int> {
    set i | 0 <= i < |findings| && findings[i].severity == severity
  }

  ghost function OfFrom(findings: seq<Finding>, severity: Severity, n: nat): set<int> {
    set i | n <= i < |findings| && findings[i].severity == severity
  }

  lemma OneMoreOf(findings: seq<Finding>, severity: Severity, n: nat)
    requires n < |findings|
    ensures |OfFrom(findings, severity, n)|
         == |OfFrom(findings, severity, n + 1)| + if findings[n].severity == severity then 1 else 0
  {
    assert OfFrom(findings, severity, n)
        == OfFrom(findings, severity, n + 1) + if findings[n].severity == severity then {n as int} else {};
  }

  lemma {:induction false} CountIsOf(findings: seq<Finding>, severity: Severity, n: nat)
    requires n <= |findings|
    ensures Count(findings[n..], severity) == |OfFrom(findings, severity, n)|
    decreases |findings| - n
  {
    if n == |findings| {
      assert OfFrom(findings, severity, n) == {};
    } else {
      CountIsOf(findings, severity, n + 1);
      OneMoreOf(findings, severity, n);
      assert findings[n..][1..] == findings[n + 1..];
    }
  }

  lemma CountsAreOf(findings: seq<Finding>, severity: Severity)
    ensures Count(findings, severity) == |Of(findings, severity)|
  {
    CountIsOf(findings, severity, 0);
    assert findings[0..] == findings && OfFrom(findings, severity, 0) == Of(findings, severity);
  }

  /** `renderGithub`: the annotations, a summary line, and a final line feed. */
  method RenderGithub(findings: seq<Finding>, recordsChecked: nat) returns (text: JsString)
    ensures text == Report(findings, recordsChecked)
    ensures var lines := Jsonl.Lines(text);
            && |lines| == |findings| + 2 && lines[|findings| + 1] == []
            && (forall i :: 0 <= i < |findings| ==> ReadAnnotation(lines[i]) == Some(Expected(findings[i])))
            && ReadSummary(lines[|findings|]) == Some(
                 [|Of(findings, Error)|, |Of(findings, Warning)|, |Of(findings, Notice)|, recordsChecked])
  {
    var lines := AnnotationLines(findings);
    lines := lines + [Summary(findings, recordsChecked)];
    text := Jsonl.Joined(lines) + [LF];
    ReportRoundTrip(findings, recordsChecked);
  }

  lemma SummaryIsOneLine(errors: nat, warnings: nat, notices: nat, recordsChecked: nat)
    ensures Jsonl.IsLine(SummaryOf(errors, warnings, notices, recordsChecked))
  {
    WordsEndNumbers();
    FiguresAreOneLine([errors, warnings, notices, recordsChecked], WORDS);
  }

  lemma {:induction false} JoinedSnoc(lines: seq<JsString>)
    requires |lines| > 0
    ensures Jsonl.Joined(lines + [[]]) == Jsonl.Joined(lines) + [LF]
  {
    if |lines| == 1 {
      assert (lines + [[]])[1..] == [[]];
      assert [LF] + [] == [LF];
    } else {
      assert (lines + [[]])[1..] == lines[1..] + [[]];
      JoinedSnoc(lines[1..]);
      var tail := Jsonl.Joined(lines[1..]);
      assert lines[0] + ([LF] + (tail + [LF])) == (lines[0] + ([LF] + tail)) + [LF];
    }
  }

  lemma LinesOfReport(findings: seq<Finding>, summary: JsString)
    requires Jsonl.IsLine(summary)
    ensures var lines := AnnotationLines(findings) + [summary] + [[]];
            forall i :: 0 <= i < |lines| ==> Jsonl.IsLine(lines[i])
  {
    forall i | 0 <= i < |findings| ensures Jsonl.IsLine(AnnotationLines(findings)[i]) {
      AnnotationIsOneLine(findings[i]);
    }
  }

  /** Line i of a rendered report reads back as finding i, the summary line as its figures; nothing else follows. */
  lemma ReportRoundTrip(findings: seq<Finding>, recordsChecked: nat)
    ensures var lines := Jsonl.Lines(Report(findings, recordsChecked));
            && |lines| == |findings| + 2 && lines[|findings| + 1] == []
            && (forall i :: 0 <= i < |findings| ==> ReadAnnotation(lines[i]) == Some(Expected(findings[i])))
            && ReadSummary(lines[|findings|]) == Some(
                 [|Of(findings, Error)|, |Of(findings, Warning)|, |Of(findings, Notice)|, recordsChecked])
  {
    LinesAreBack(findings, recordsChecked);
    SummaryIsBack(findings, recordsChecked);
    var lines := AnnotationLines(findings) + [Summary(findings, recordsChecked)] + [[]];
    forall i | 0 <= i < |findings| ensures ReadAnnotation(lines[i]) == Some(Expected(findings[i])) {
      assert lines[i] == Annotation(findings[i]);
      AnnotationRoundTrip(findings[i]);
    }
  }

  lemma SummaryIsBack(findings: seq<Finding>, recordsChecked: nat)
    ensures ReadSummary(Summary(findings, recordsChecked)) == Some(
      [|Of(findings, Error)|, |Of(findings, Warning)|, |Of(findings, Notice)|, recordsChecked])
  {
    SummaryIsRead(Count(findings, Error), Count(findings, Warning), Count(findings, Notice), recordsChecked);
    CountsAreOf(findings, Error);
    CountsAreOf(findings, Warning);
    CountsAreOf(findings, Notice);
  }

  lemma LinesAreBack(findings: seq<Finding>, recordsChecked: nat)
    ensures Jsonl.Lines(Report(findings, recordsChecked))
         == AnnotationLines(findings) + [Summary(findings, recordsChecked)] + [[]]
  {
    var summary := Summary(findings, recordsChecked);
    var lines := AnnotationLines(findings) + [summary];
    SummaryIsOneLine(
      Count(findings, Error), Count(findings, Warning), Count(findings, Notice), recordsChecked);
    JoinedSnoc(lines);
    LinesOfReport(findings, summary);
    Jsonl.SplitUndoesJoin(lines + [[]]);
  }
}

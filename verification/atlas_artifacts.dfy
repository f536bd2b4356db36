/** readJsonl: the same records as parseJsonlArtifact, located, with findings for what was not taken. */
module AtlasArtifacts {
  import opened Prelude
  import opened JsText
  import opened Findings
  import opened EvidenceGraph
  import opened Jsonl
  import X = GraphExact

  const MAX_JSONL_LINES: nat := 10_000
  const MAX_RECORDS: nat := 5_000
  const ARTIFACT_001: JsString := Text("ORATLAS-ARTIFACT-001")
  const ARTIFACT_002: JsString := Text("ORATLAS-ARTIFACT-002")
  const ARTIFACT_003: JsString := Text("ORATLAS-ARTIFACT-003")
  const LIMIT_001: JsString := Text("ORATLAS-LIMIT-001")
  const LIMIT_002: JsString := Text("ORATLAS-LIMIT-002")
  const SECURITY_001: JsString := Text("ORATLAS-SECURITY-001")

  /** What the bounded reader returned for the path. */
  datatype ReadResult = Content(text: JsString) | Missing | Rejected(detail: JsString)

  // -------------------------------------------------------------- what it adds

  function ReadFailure(w: Wording, path: JsString, result: ReadResult): Finding
    requires !result.Content?
  {
    var rule := if result.Missing? then ARTIFACT_001 else SECURITY_001;
    var parts := if result.Missing? then [path] else [path, result.detail];
    Finding(rule, Error, w.message(rule, parts), Some(path), None, None, w.suggestion(rule, parts))
  }

  /** An error finding about the whole file. */
  function FileError(w: Wording, rule: JsString, parts: seq<JsString>, path: JsString): Finding {
    Finding(
      ruleId := rule, severity := Error, message := w.message(rule, parts), path := Some(path), line := None,
      column := None, suggestion := w.suggestion(rule, parts))
  }

  /** The finding of a line, if it is neither blank nor valid. */
  function FindingsOf<T>(
    w: Wording, path: JsString, kind: JsString, schema: JsString -> Outcome<T>, line: JsString, number: nat)
    : seq<Finding>
  {
    if Blank(line) then []
    else
      match schema(Trim(line))
      case Valid(_) => []
      case BadSchema(details) => [At(w, ARTIFACT_003, Error, [kind, details], path, number)]
      case BadJson => [At(w, ARTIFACT_002, Error, [kind], path, number)]
  }

  /** One error finding for each non-blank line that is not valid. */
  function LineFindings<T>(
    w: Wording, path: JsString, kind: JsString, schema: JsString -> Outcome<T>, lines: seq<JsString>): seq<Finding>
  {
    if lines == [] then []
    else
      LineFindings(w, path, kind, schema, lines[..|lines| - 1])
      + FindingsOf(w, path, kind, schema, lines[|lines| - 1], |lines|)
  }

  function TooManyLines(w: Wording, path: JsString, lines: seq<JsString>): seq<Finding> {
    if |lines| > MAX_JSONL_LINES
    then [At(w, LIMIT_002, Error, [path, Decimal(|lines|)], path, MAX_JSONL_LINES + 1)] else []
  }

  function TooManyRecords(w: Wording, path: JsString, truncated: bool, line: nat): seq<Finding> {
    if truncated then [At(w, LIMIT_001, Error, [path], path, line)] else []
  }

  /** The lines that are inspected. */
  function Inspected(content: JsString): seq<JsString> {
    var lines := Lines(content);
    if |lines| > MAX_JSONL_LINES then lines[..MAX_JSONL_LINES] else lines
  }

  function AllFindings<T>(
    w: Wording, path: JsString, kind: JsString, schema: JsString -> Outcome<T>, content: JsString): seq<Finding>
  {
    var lines := Inspected(content);
    var c := Cut(schema, lines, MAX_RECORDS);
    TooManyLines(w, path, Lines(content)) + LineFindings(w, path, kind, schema, lines[..c])
    + TooManyRecords(w, path, c < |lines|, c + 1)
  }

  // ------------------------------------------------------------------ records

  function LocatedRecords<T>(schema: JsString -> Outcome<T>, path: JsString, lines: seq<JsString>): seq<Located<T>> {
    if lines == [] then []
    else
      LocatedRecords(schema, path, lines[..|lines| - 1]) + LocatedOf(schema, path, lines[|lines| - 1], |lines|)
  }

  function LocatedOf<T>(schema: JsString -> Outcome<T>, path: JsString, line: JsString, number: nat): seq<Located<T>> {
    if Blank(line) then []
    else match schema(Trim(line)) case Valid(record) => [Located(record, number, path)] case _ => []
  }

  function Values<T>(records: seq<Located<T>>): (r: seq<T>)
    ensures |r| == |records|
  {
    seq(|records|, i requires 0 <= i < |records| => records[i].value)
  }

  lemma {:induction false} LocatedValues<T>(schema: JsString -> Outcome<T>, path: JsString, lines: seq<JsString>)
    ensures Values(LocatedRecords(schema, path, lines)) == ValidRecords(schema, lines)
    ensures |LocatedRecords(schema, path, lines)| == |ValidRecords(schema, lines)|
  {
    if lines != [] {
      var rest := lines[..|lines| - 1];
      LocatedValues(schema, path, rest);
      var before := LocatedRecords(schema, path, rest);
      assert Values(LocatedRecords(schema, path, lines)) == Values(before) + RecordOf(schema, lines[|lines| - 1]);
    }
  }

  lemma LocatedStep<T>(
    w: Wording, path: JsString, kind: JsString, schema: JsString -> Outcome<T>, lines: seq<JsString>, i: nat)
    requires i < |lines|
    ensures LocatedRecords(schema, path, lines[..i + 1])
         == LocatedRecords(schema, path, lines[..i]) + LocatedOf(schema, path, lines[i], i + 1)
    ensures LineFindings(w, path, kind, schema, lines[..i + 1])
         == LineFindings(w, path, kind, schema, lines[..i]) + FindingsOf(w, path, kind, schema, lines[i], i + 1)
    ensures NonBlank(lines[..i + 1]) == NonBlank(lines[..i]) + if Blank(lines[i]) then 0 else 1
  {
    assert lines[..i + 1][..i] == lines[..i];
  }

  /** The loop's own test decides whether parsing stops here. */
  lemma CutStep<T>(schema: JsString -> Outcome<T>, path: JsString, lines: seq<JsString>, i: nat)
    requires i < |lines|
    ensures var stops := !Blank(lines[i]) && |LocatedRecords(schema, path, lines[..i])| >= MAX_RECORDS;
            CutFrom(schema, lines, MAX_RECORDS, i) == if stops then i else CutFrom(schema, lines, MAX_RECORDS, i + 1)
  {
    LocatedValues(schema, path, lines[..i]);
  }

  // ------------------------------------------------- what a reading is, line by line

  /** f is the one error finding for line i, which is neither blank nor valid. */
  ghost predicate IsFaultOf<T>(
    f: Finding, w: Wording, path: JsString, kind: JsString, schema: JsString -> Outcome<T>, line: JsString, i: nat)
  {
    && !AllSpace(line)
    && match schema(Trim(line))
       case Valid(_) => false
       case BadSchema(details) => f == X.Report(w, Text("ORATLAS-ARTIFACT-003"), Error, [kind, details], path, i + 1)
       case BadJson => f == X.Report(w, Text("ORATLAS-ARTIFACT-002"), Error, [kind], path, i + 1)
  }

  ghost predicate IsSomeFault<T>(
    f: Finding, w: Wording, path: JsString, kind: JsString, schema: JsString -> Outcome<T>, lines: seq<JsString>, n: nat)
    requires n <= |lines|
  {
    exists i: nat :: i < n && IsFaultOf(f, w, path, kind, schema, lines[i], i)
  }

  /** No two findings stand at the same line, and those at lines are up to n. */
  ghost predicate AscendingLines(found: seq<Finding>, n: nat) {
    && (forall k :: 0 <= k < |found| ==> found[k].line.Some? && found[k].line.value <= n)
    && (forall j, k :: 0 <= j < k < |found| ==> found[j].line.value < found[k].line.value)
  }

  lemma {:induction false} LineFindingsInOrder<T>(
    w: Wording, path: JsString, kind: JsString, schema: JsString -> Outcome<T>, lines: seq<JsString>, n: nat)
    requires n <= |lines|
    ensures AscendingLines(LineFindings(w, path, kind, schema, lines[..n]), n)
    ensures forall f ::
      f in LineFindings(w, path, kind, schema, lines[..n]) <==> IsSomeFault(f, w, path, kind, schema, lines, n)
  {
    if n > 0 {
      LineFindingsInOrder(w, path, kind, schema, lines, n - 1);
      LocatedStep(w, path, kind, schema, lines, n - 1);
      var before := LineFindings(w, path, kind, schema, lines[..n - 1]);
      var last := FindingsOf(w, path, kind, schema, lines[n - 1], n);
      AscendingWith(before, last, n);
      forall f ensures f in before + last <==> IsSomeFault(f, w, path, kind, schema, lines, n) {
        OneMoreFault(f, w, path, kind, schema, lines, n);
      }
    }
  }

  lemma AscendingWith(found: seq<Finding>, last: seq<Finding>, n: nat)
    requires n > 0 && AscendingLines(found, n - 1) && |last| <= 1 && (last != [] ==> last[0].line == Some(n))
    ensures AscendingLines(found + last, n)
  {
  }

  lemma OneMoreFault<T>(
    f: Finding, w: Wording, path: JsString, kind: JsString, schema: JsString -> Outcome<T>, lines: seq<JsString>, n: nat)
    requires 0 < n <= |lines|
    ensures IsSomeFault(f, w, path, kind, schema, lines, n) <==>
      || IsSomeFault(f, w, path, kind, schema, lines, n - 1)
      || f in FindingsOf(w, path, kind, schema, lines[n - 1], n)
  {
    BlankIsAllSpace(lines[n - 1]);
    assert IsFaultOf(f, w, path, kind, schema, lines[n - 1], n - 1)
      <==> f in FindingsOf(w, path, kind, schema, lines[n - 1], n);
  }

  /** Record k is that of the k-th valid line, with that line's number and the file's path. */
  lemma {:induction false} LocatedInOrder<T>(
    schema: JsString -> Outcome<T>, path: JsString, lines: seq<JsString>, n: nat)
    requires n <= |lines|
    ensures AreLocated(LocatedRecords(schema, path, lines[..n]), schema, path, lines, ValidAt(schema, lines, n))
  {
    if n > 0 {
      LocatedInOrder(schema, path, lines, n - 1);
      assert lines[..n][..n - 1] == lines[..n - 1];
      BlankIsAllSpace(lines[n - 1]);
    }
  }

  ghost predicate AreLocated<T>(
    records: seq<Located<T>>, schema: JsString -> Outcome<T>, path: JsString, lines: seq<JsString>, valid: seq<nat>)
  {
    && |records| == |valid|
    && forall k :: 0 <= k < |valid| ==>
         && valid[k] < |lines|
         && schema(Trim(lines[valid[k]])) == Valid(records[k].value)
         && records[k].line == valid[k] + 1 && records[k].path == path
  }

  /**
   * What reading a file yields. Of its first 10,000 lines, those are read that come before the first
   * line with text which has 5,000 valid lines before it.
   */
  ghost predicate IsReading<T>(
    records: seq<Located<T>>, checked: nat, schema: JsString -> Outcome<T>, path: JsString, lines: seq<JsString>, c: nat)
    requires c <= |lines|
  {
    && (forall i :: 0 <= i < c ==> AllSpace(lines[i]) || |ValidAt(schema, lines, i)| < 5_000)
    && (c < |lines| ==> !AllSpace(lines[c]) && |ValidAt(schema, lines, c)| >= 5_000)
    && AreLocated(records, schema, path, lines, ValidAt(schema, lines, c))
    && checked == |set i | 0 <= i < c && !AllSpace(lines[i])|
  }

  /** The findings of a file: too many lines, too many records, and every bad line that was read. */
  ghost predicate IsFileFault<T>(
    f: Finding, w: Wording, path: JsString, kind: JsString, schema: JsString -> Outcome<T>, all: seq<JsString>, c: nat)
    requires c <= |all|
  {
    || (|all| > 10_000 && f == X.Report(w, Text("ORATLAS-LIMIT-002"), Error, [path, Decimal(|all|)], path, 10_001))
    || (c < |all| && c < 10_000 && f == X.Report(w, Text("ORATLAS-LIMIT-001"), Error, [path], path, c + 1))
    || IsSomeFault(f, w, path, kind, schema, all, c)
  }

  /** The first 10,000 lines. */
  ghost function FirstLines(all: seq<JsString>): seq<JsString> {
    if |all| <= 10_000 then all else all[..10_000]
  }

  lemma ReadingIsExact<T>(schema: JsString -> Outcome<T>, path: JsString, content: JsString)
    ensures var lines := FirstLines(Lines(content));
      var c := Cut(schema, Inspected(content), MAX_RECORDS);
      && c <= |lines| && Inspected(content) == lines
      && IsReading(LocatedRecords(schema, path, lines[..c]), NonBlank(lines[..c]), schema, path, lines, c)
  {
    var lines := FirstLines(Lines(content));
    var c := Cut(schema, lines, MAX_RECORDS);
    CutIs(schema, lines, MAX_RECORDS);
    LocatedInOrder(schema, path, lines, c);
    NonBlankCounts(lines[..c], 0);
    assert lines[..c][0..] == lines[..c];
    assert (set i | 0 <= i < |lines[..c]| && !AllSpace(lines[..c][i])) == set i | 0 <= i < c && !AllSpace(lines[i]);
  }

  lemma FaultsAreExact<T>(
    w: Wording, path: JsString, kind: JsString, schema: JsString -> Outcome<T>, content: JsString, f: Finding)
    ensures var c := Cut(schema, Inspected(content), MAX_RECORDS);
      && c <= |Lines(content)|
      && (f in AllFindings(w, path, kind, schema, content)
          <==> IsFileFault(f, w, path, kind, schema, Lines(content), c))
  {
    var all, lines := Lines(content), Inspected(content);
    var c := Cut(schema, lines, MAX_RECORDS);
    LineFindingsInOrder(w, path, kind, schema, lines, c);
    assert forall i :: 0 <= i < c ==> lines[i] == all[i];
    assert IsSomeFault(f, w, path, kind, schema, lines, c) <==> IsSomeFault(f, w, path, kind, schema, all, c);
  }

  /** No two findings stand at the same line, so none is added twice. */
  lemma FaultsAreApart<T>(w: Wording, path: JsString, kind: JsString, schema: JsString -> Outcome<T>, content: JsString)
    ensures var found := AllFindings(w, path, kind, schema, content);
      forall j, k :: 0 <= j < k < |found| ==> found[j].line != found[k].line
  {
    var lines := Inspected(content);
    var c := Cut(schema, lines, MAX_RECORDS);
    LineFindingsInOrder(w, path, kind, schema, lines, c);
  }

  /** Everything about the reading of a file with this content. */
  ghost predicate IsReadingOf<T>(
    records: seq<Located<T>>, checked: nat, found: seq<Finding>,
    w: Wording, path: JsString, kind: JsString, schema: JsString -> Outcome<T>, content: JsString)
  {
    exists c: nat :: c <= |FirstLines(Lines(content))|
      && IsReading(records, checked, schema, path, FirstLines(Lines(content)), c)
      && AreFileFaults(found, w, path, kind, schema, Lines(content), c)
  }

  /** Those findings, each once. */
  ghost predicate AreFileFaults<T>(
    found: seq<Finding>, w: Wording, path: JsString, kind: JsString, schema: JsString -> Outcome<T>,
    all: seq<JsString>, c: nat)
    requires c <= |all|
  {
    && (forall f :: f in found <==> IsFileFault(f, w, path, kind, schema, all, c))
    && (forall j, k :: 0 <= j < k < |found| ==> found[j].line != found[k].line)
  }

  lemma FaultsTogether<T>(
    w: Wording, path: JsString, kind: JsString, schema: JsString -> Outcome<T>, content: JsString)
    ensures var c := Cut(schema, Inspected(content), MAX_RECORDS);
      && c <= |Lines(content)|
      && AreFileFaults(AllFindings(w, path, kind, schema, content), w, path, kind, schema, Lines(content), c)
  {
    var c := Cut(schema, Inspected(content), MAX_RECORDS);
    FaultsAreApart(w, path, kind, schema, content);
    forall f ensures f in AllFindings(w, path, kind, schema, content)
                <==> IsFileFault(f, w, path, kind, schema, Lines(content), c)
    {
      FaultsAreExact(w, path, kind, schema, content, f);
    }
  }

  lemma ReadingAt<T>(
    records: seq<Located<T>>, checked: nat, found: seq<Finding>,
    w: Wording, path: JsString, kind: JsString, schema: JsString -> Outcome<T>, content: JsString, c: nat)
    requires c <= |FirstLines(Lines(content))|
    requires IsReading(records, checked, schema, path, FirstLines(Lines(content)), c)
    requires AreFileFaults(found, w, path, kind, schema, Lines(content), c)
    ensures IsReadingOf(records, checked, found, w, path, kind, schema, content)
  {
  }

  lemma ReadingOfIsExact<T>(
    w: Wording, path: JsString, kind: JsString, schema: JsString -> Outcome<T>, content: JsString)
    ensures var lines := Inspected(content);
      var c := Cut(schema, lines, MAX_RECORDS);
      IsReadingOf(
        LocatedRecords(schema, path, lines[..c]), NonBlank(lines[..c]), AllFindings(w, path, kind, schema, content),
        w, path, kind, schema, content)
  {
    var lines := Inspected(content);
    var c := Cut(schema, lines, MAX_RECORDS);
    ReadingIsExact(schema, path, content);
    FaultsTogether(w, path, kind, schema, content);
    ReadingAt(
      LocatedRecords(schema, path, lines[..c]), NonBlank(lines[..c]), AllFindings(w, path, kind, schema, content),
      w, path, kind, schema, content, c);
  }

  // ------------------------------------------------------------------- reader

  method ReadJsonl<T>(
    sink: FindingSink, path: JsString, result: ReadResult, schema: JsString -> Outcome<T>, kind: JsString)
    returns (records: seq<Located<T>>, checked: nat)
    requires sink.Valid()
    modifies sink
    ensures sink.Valid()
    ensures !result.Content? ==>
              records == [] && checked == 0 && sink.added == old(sink.added) + [ReadFailure(sink.wording, path, result)]
    ensures result.Content? ==>
              var lines := Inspected(result.text);
              var c := Cut(schema, lines, MAX_RECORDS);
              && records == LocatedRecords(schema, path, lines[..c])
              && checked == NonBlank(lines[..c])
              && sink.added == old(sink.added) + AllFindings(sink.wording, path, kind, schema, result.text)
    ensures result.Missing? ==>
              sink.added == old(sink.added) + [FileError(sink.wording, Text("ORATLAS-ARTIFACT-001"), [path], path)]
    ensures result.Rejected? ==>
              sink.added
              == old(sink.added) + [FileError(sink.wording, Text("ORATLAS-SECURITY-001"), [path, result.detail], path)]
    ensures result.Content? ==>
              && old(sink.added) <= sink.added
              && IsReadingOf(
                   records, checked, sink.added[|old(sink.added)|..], sink.wording, path, kind, schema, result.text)
  {
    if !result.Content? {
      sink.Add(ReadFailure(sink.wording, path, result));
      return [], 0;
    }
    ghost var start := sink.added;
    records, checked := ReadContent(sink, path, result.text, schema, kind);
    ReadingOfIsExact(sink.wording, path, kind, schema, result.text);
    assert sink.added[|start|..] == AllFindings(sink.wording, path, kind, schema, result.text);
  }

  method ReadContent<T>(
    sink: FindingSink, path: JsString, text: JsString, schema: JsString -> Outcome<T>, kind: JsString)
    returns (records: seq<Located<T>>, checked: nat)
    requires sink.Valid()
    modifies sink
    ensures sink.Valid()
    ensures var lines := Inspected(text);
            var c := Cut(schema, lines, MAX_RECORDS);
            && records == LocatedRecords(schema, path, lines[..c])
            && checked == NonBlank(lines[..c])
    ensures sink.added == old(sink.added) + AllFindings(sink.wording, path, kind, schema, text)
  {
    var lines := Lines(text);
    ghost var start, tooMany := sink.added, TooManyLines(sink.wording, path, lines);
    if |lines| > MAX_JSONL_LINES {
      sink.Add(At(sink.wording, LIMIT_002, Error, [path, Decimal(|lines|)], path, MAX_JSONL_LINES + 1));
    } else {
      assert start + [] == start;
    }
    assert sink.added == start + tooMany;
    var truncated, at;
    records, checked, truncated, at := ReadLines(sink, path, Inspected(text), schema, kind);
    ghost var found := LineFindings(sink.wording, path, kind, schema, Inspected(text)[..at]);
    Regroup(start, tooMany, found);
    Regroup(start, tooMany + found, TooManyRecords(sink.wording, path, truncated, at + 1));
  }

  /** The loop over the inspected lines; it stops where a record would exceed the cap. */
  method ReadLines<T>(
    sink: FindingSink, path: JsString, lines: seq<JsString>, schema: JsString -> Outcome<T>, kind: JsString)
    returns (records: seq<Located<T>>, checked: nat, truncated: bool, at: nat)
    requires sink.Valid()
    modifies sink
    ensures sink.Valid() && at == Cut(schema, lines, MAX_RECORDS) && truncated == (at < |lines|)
    ensures records == LocatedRecords(schema, path, lines[..at]) && checked == NonBlank(lines[..at])
    ensures sink.added == old(sink.added) + LineFindings(sink.wording, path, kind, schema, lines[..at])
                          + TooManyRecords(sink.wording, path, truncated, at + 1)
  {
    records, checked, truncated, at := [], 0, false, 0;
    ghost var start, found: seq<Finding> := sink.added, [];
    assert start + [] == start;
    while at < |lines|
      invariant at <= |lines| && sink.Valid() && sink.added == start + found
      invariant records == LocatedRecords(schema, path, lines[..at]) && checked == NonBlank(lines[..at])
      invariant found == LineFindings(sink.wording, path, kind, schema, lines[..at])
      invariant Cut(schema, lines, MAX_RECORDS) == CutFrom(schema, lines, MAX_RECORDS, at)
    {
      CutStep(schema, path, lines, at);
      if !Blank(lines[at]) && |records| >= MAX_RECORDS {
        truncated := true;
        sink.Add(At(sink.wording, LIMIT_001, Error, [path], path, at + 1));
        return;
      }
      LocatedStep(sink.wording, path, kind, schema, lines, at);
      ghost var more := FindingsOf(sink.wording, path, kind, schema, lines[at], at + 1);
      Regroup(start, found, more);
      records, checked := ReadLine(sink, path, lines[at], at + 1, schema, kind, records, checked);
      found := found + more;
      at := at + 1;
    }
    assert (start + found) + [] == start + found;
  }

  method ReadLine<T>(
    sink: FindingSink, path: JsString, raw: JsString, number: nat, schema: JsString -> Outcome<T>, kind: JsString,
    before: seq<Located<T>>, checkedBefore: nat)
    returns (records: seq<Located<T>>, checked: nat)
    requires sink.Valid()
    modifies sink
    ensures sink.Valid()
    ensures sink.added == old(sink.added) + FindingsOf(sink.wording, path, kind, schema, raw, number)
    ensures records == before + LocatedOf(schema, path, raw, number)
    ensures checked == checkedBefore + if Blank(raw) then 0 else 1
  {
    records, checked := before, checkedBefore;
    var line := Trim(raw);
    assert sink.added + [] == sink.added;
    if line == [] { return; }
    checked := checked + 1;
    match schema(line) {
      case Valid(record) => records := records + [Located(record, number, path)];
      case BadSchema(details) =>
        sink.Add(At(sink.wording, ARTIFACT_003, Error, [kind, details], path, number));
      case BadJson => sink.Add(At(sink.wording, ARTIFACT_002, Error, [kind], path, number));
    }
  }

  // ---------------------------------------------------------------- agreement

  lemma {:induction false} FindingsCountErrors<T>(
    w: Wording, path: JsString, kind: JsString, schema: JsString -> Outcome<T>, lines: seq<JsString>)
    ensures |LineFindings(w, path, kind, schema, lines)| == |InvalidLines(schema, lines)|
    ensures !ErrorFree(LineFindings(w, path, kind, schema, lines)) <==> InvalidLines(schema, lines) != []
  {
    if lines != [] {
      var rest, last := lines[..|lines| - 1], lines[|lines| - 1];
      FindingsCountErrors(w, path, kind, schema, rest);
      var more := FindingsOf(w, path, kind, schema, last, |lines|);
      ErrorFreeConcat(LineFindings(w, path, kind, schema, rest), more);
      assert more != [] ==> more[0] in more && more[0].severity == Error;
    }
  }

  /**
   * For files of at most 10,000 lines Atlas Check takes exactly the records the
   * platform's parser takes, counts exactly its records and errors, and reports
   * one finding per error and one more if it stopped at the cap.
   */
  lemma AgreesWithParser<T>(
    w: Wording, path: JsString, kind: JsString, schema: JsString -> Outcome<T>, content: JsString)
    requires |Lines(content)| <= MAX_JSONL_LINES
    ensures var parsed := Parsed(schema, Lines(content), MAX_RECORDS);
            var c := Cut(schema, Inspected(content), MAX_RECORDS);
            && Values(LocatedRecords(schema, path, Inspected(content)[..c])) == parsed.records
            && NonBlank(Inspected(content)[..c]) == |parsed.records| + |parsed.errors|
            && |AllFindings(w, path, kind, schema, content)| == |parsed.errors| + if parsed.truncated then 1 else 0
  {
    var lines := Lines(content);
    var c := Cut(schema, lines, MAX_RECORDS);
    LocatedValues(schema, path, lines[..c]);
    EveryLineIsCounted(schema, lines[..c]);
    FindingsCountErrors(w, path, kind, schema, lines[..c]);
  }

  /** A longer file is read as if it ended after 10,000 lines, and says so. */
  lemma LongFilesAreCut<T>(
    w: Wording, path: JsString, kind: JsString, schema: JsString -> Outcome<T>, content: JsString)
    requires |Lines(content)| > MAX_JSONL_LINES
    ensures var parsed := Parsed(schema, Lines(content)[..MAX_JSONL_LINES], MAX_RECORDS);
            var c := Cut(schema, Inspected(content), MAX_RECORDS);
            && Values(LocatedRecords(schema, path, Inspected(content)[..c])) == parsed.records
            && NonBlank(Inspected(content)[..c]) == |parsed.records| + |parsed.errors|
            && !ErrorFree(AllFindings(w, path, kind, schema, content))
  {
    var lines := Inspected(content);
    var c := Cut(schema, lines, MAX_RECORDS);
    LocatedValues(schema, path, lines[..c]);
    EveryLineIsCounted(schema, lines[..c]);
    var all := AllFindings(w, path, kind, schema, content);
    assert all[0] == TooManyLines(w, path, Lines(content))[0] && all[0] in all;
  }
}

/** parseJsonlArtifact: strict per-line validation with a record cap. */
module Jsonl {
  import opened Prelude
  import opened JsText

  const LF: CodeUnit := 10
  const CR: CodeUnit := 13

  /** `schema.safeParse(JSON.parse(line))`, which this model does not define. */
  datatype Outcome<+T> = Valid(record: T) | BadSchema(details: JsString) | BadJson

  datatype LineError = LineError(line: nat, message: JsString)

  datatype JsonlParseResult<+T> = JsonlParseResult(
    records: seq<T>, errors: seq<LineError>, truncated: bool, truncatedCount: nat)

  // ---------------------------------------------------------- lines and blanks

  /** The text before a line feed, less one carriage return. */
  function Ended(line: JsString): JsString {
    if line != [] && line[|line| - 1] == CR then line[..|line| - 1] else line
  }

  /** `content.split(/\r?\n/)`, with `line` read so far. */
  function SplitAfter(line: JsString, content: JsString): (r: seq<JsString>)
    ensures |r| > 0
    decreases |content|
  {
    if content == [] then [line]
    else if content[0] == LF then [Ended(line)] + SplitAfter([], content[1..])
    else SplitAfter(line + [content[0]], content[1..])
  }

  function Lines(content: JsString): seq<JsString> {
    SplitAfter([], content)
  }

  /** A line of a text file: no line feed inside, no carriage return at the end. */
  predicate IsLine(line: JsString) {
    10 !in line && (line == [] || line[|line| - 1] != 13)
  }

  function Joined(lines: seq<JsString>): JsString
    requires |lines| > 0
  {
    if |lines| == 1 then lines[0] else lines[0] + ([LF] + Joined(lines[1..]))
  }

  lemma {:induction false} ReadsToLineEnd(read: JsString, line: JsString, rest: JsString)
    requires LF !in line && (rest == [] || rest[0] == LF)
    ensures SplitAfter(read, line + rest) == SplitAfter(read + line, rest)
    decreases |line|
  {
    if line == [] {
      assert line + rest == rest && read + line == read;
    } else {
      assert line[0] in line;
      assert (line + rest)[1..] == line[1..] + rest && (read + [line[0]]) + line[1..] == read + line;
      ReadsToLineEnd(read + [line[0]], line[1..], rest);
    }
  }

  /** Splitting recovers the lines that were joined. */
  lemma {:induction false} SplitUndoesJoin(lines: seq<JsString>)
    requires |lines| > 0 && forall i :: 0 <= i < |lines| ==> IsLine(lines[i])
    ensures Lines(Joined(lines)) == lines
  {
    assert IsLine(lines[0]) && [] + lines[0] == lines[0];
    if |lines| == 1 {
      assert lines[0] + [] == lines[0];
      ReadsToLineEnd([], lines[0], []);
    } else {
      var rest := [LF] + Joined(lines[1..]);
      ReadsToLineEnd([], lines[0], rest);
      SplitUndoesJoin(lines[1..]);
      assert rest[1..] == Joined(lines[1..]);
    }
  }

  /** A text whose lines end in a line feed, or in a carriage return and a line feed where crlf says so. */
  ghost function Ending(lines: seq<JsString>, crlf: seq<bool>): JsString
    requires |lines| > 0 && |crlf| == |lines| - 1
  {
    if |lines| == 1 then lines[0]
    else lines[0] + ((if crlf[0] then [13, 10] else [10]) + Ending(lines[1..], crlf[1..]))
  }

  /** Either line ending is taken off, and one carriage return at most. */
  lemma {:induction false} SplitUndoesEnding(lines: seq<JsString>, crlf: seq<bool>)
    requires |lines| > 0 && |crlf| == |lines| - 1
    requires forall i :: 0 <= i < |lines| ==> 10 !in lines[i]
    requires forall i :: 0 <= i < |crlf| ==> crlf[i] || IsLine(lines[i])
    ensures Lines(Ending(lines, crlf)) == lines
  {
    if |lines| == 1 {
      assert lines[0] + [] == lines[0] && [] + lines[0] == lines[0];
      ReadsToLineEnd([], lines[0], []);
    } else {
      var tail := Ending(lines[1..], crlf[1..]);
      var line := if crlf[0] then lines[0] + [13] else lines[0];
      assert Ending(lines, crlf) == line + ([LF] + tail) && [] + line == line;
      assert Ended(line) == lines[0];
      ReadsToLineEnd([], line, [LF] + tail);
      SplitUndoesEnding(lines[1..], crlf[1..]);
      assert ([LF] + tail)[1..] == tail;
    }
  }

  /** White space and line terminators of ECMA-262, sections 12.2 and 12.3. */
  predicate IsSpace(u: CodeUnit) {
    9 <= u <= 13 || u == 32 || u == 0xA0 || u == 0x1680 || 0x2000 <= u <= 0x200A || u == 0x2028 || u == 0x2029
    || u == 0x202F || u == 0x205F || u == 0x3000 || u == 0xFEFF
  }

  function TrimStart(s: JsString): JsString {
    if s != [] && IsSpace(s[0]) then TrimStart(s[1..]) else s
  }

  function TrimEnd(s: JsString): JsString {
    if s != [] && IsSpace(s[|s| - 1]) then TrimEnd(s[..|s| - 1]) else s
  }

  function Trim(s: JsString): JsString {
    TrimEnd(TrimStart(s))
  }

  predicate Blank(line: JsString) {
    Trim(line) == []
  }

  // ------------------------------------------------------ what a prefix holds

  function NonBlank(lines: seq<JsString>): nat {
    if lines == [] then 0
    else NonBlank(lines[..|lines| - 1]) + if Blank(lines[|lines| - 1]) then 0 else 1
  }

  /** The record of a line, if it has one. */
  function RecordOf<T>(schema: JsString -> Outcome<T>, line: JsString): seq<T> {
    if Blank(line) then []
    else match schema(Trim(line)) case Valid(record) => [record] case _ => []
  }

  /** The error of a line, if it is neither blank nor valid. */
  function ErrorOf<T>(schema: JsString -> Outcome<T>, line: JsString, number: nat): seq<LineError> {
    if Blank(line) then []
    else
      match schema(Trim(line))
      case Valid(_) => []
      case BadSchema(details) => [LineError(number, details)]
      case BadJson => [LineError(number, Text("Invalid JSON"))]
  }

  /** The records of the valid lines, in input order. */
  function ValidRecords<T>(schema: JsString -> Outcome<T>, lines: seq<JsString>): seq<T> {
    if lines == [] then []
    else ValidRecords(schema, lines[..|lines| - 1]) + RecordOf(schema, lines[|lines| - 1])
  }

  /** The errors of the others, with their line numbers. */
  function InvalidLines<T>(schema: JsString -> Outcome<T>, lines: seq<JsString>): seq<LineError> {
    if lines == [] then []
    else InvalidLines(schema, lines[..|lines| - 1]) + ErrorOf(schema, lines[|lines| - 1], |lines|)
  }

  lemma PrefixStep<T>(schema: JsString -> Outcome<T>, lines: seq<JsString>, i: nat)
    requires i < |lines|
    ensures ValidRecords(schema, lines[..i + 1]) == ValidRecords(schema, lines[..i]) + RecordOf(schema, lines[i])
    ensures InvalidLines(schema, lines[..i + 1]) == InvalidLines(schema, lines[..i]) + ErrorOf(schema, lines[i], i + 1)
  {
    assert lines[..i + 1][..i] == lines[..i];
  }

  lemma {:induction false} EveryLineIsCounted<T>(schema: JsString -> Outcome<T>, lines: seq<JsString>)
    ensures |ValidRecords(schema, lines)| + |InvalidLines(schema, lines)| == NonBlank(lines)
  {
    if lines != [] { EveryLineIsCounted(schema, lines[..|lines| - 1]); }
  }

  lemma {:induction false} NonBlankSplits(lines: seq<JsString>, i: nat)
    requires i <= |lines|
    ensures NonBlank(lines) == NonBlank(lines[..i]) + NonBlank(lines[i..])
    decreases |lines|
  {
    if i == |lines| {
      assert lines[..i] == lines && lines[i..] == [];
    } else {
      var rest := lines[..|lines| - 1];
      NonBlankSplits(rest, i);
      assert rest[..i] == lines[..i];
      assert lines[i..][..|lines[i..]| - 1] == rest[i..];
    }
  }

  /** Lines can be cut off after i only when they are not needed: i is where parsing stops. */
  function CutFrom<T>(schema: JsString -> Outcome<T>, lines: seq<JsString>, max: nat, i: nat): (c: nat)
    requires i <= |lines|
    ensures i <= c <= |lines|
    ensures c < |lines| ==> !Blank(lines[c]) && |ValidRecords(schema, lines[..c])| >= max
    ensures forall k :: i <= k < c ==> Blank(lines[k]) || |ValidRecords(schema, lines[..k])| < max
    decreases |lines| - i
  {
    if i == |lines| || (!Blank(lines[i]) && |ValidRecords(schema, lines[..i])| >= max) then i
    else CutFrom(schema, lines, max, i + 1)
  }

  /** The first non-blank line that already has `max` valid ones before it. */
  function Cut<T>(schema: JsString -> Outcome<T>, lines: seq<JsString>, max: nat): (c: nat)
    ensures c <= |lines|
  {
    CutFrom(schema, lines, max, 0)
  }

  function Parsed<T>(schema: JsString -> Outcome<T>, lines: seq<JsString>, max: nat): JsonlParseResult<T> {
    var c := Cut(schema, lines, max);
    JsonlParseResult(
      ValidRecords(schema, lines[..c]), InvalidLines(schema, lines[..c]), c < |lines|, NonBlank(lines[c..]))
  }

  // ------------------------------------------- which lines, and what of them

  /** White space, listed. */
  ghost predicate IsListedSpace(u: CodeUnit) {
    u in {
      9, 10, 11, 12, 13, 32, 160, 5760, 8192, 8193, 8194, 8195, 8196, 8197, 8198, 8199, 8200, 8201, 8202, 8232, 8233,
      8239, 8287, 12288, 65279}
  }

  ghost predicate AllSpace(s: JsString) {
    forall i :: 0 <= i < |s| ==> IsListedSpace(s[i])
  }

  /** What lies from m up to n is the rest of s once the white space at both ends is gone. */
  ghost predicate Surrounds(s: JsString, m: nat, n: nat) {
    && m <= n <= |s|
    && AllSpace(s[..m]) && AllSpace(s[n..])
    && (m < n ==> !IsListedSpace(s[m]) && !IsListedSpace(s[n - 1]))
  }

  lemma {:induction false} TrimStartIs(s: JsString) returns (m: nat)
    ensures m <= |s| && s[m..] == TrimStart(s) && AllSpace(s[..m]) && (m < |s| ==> !IsListedSpace(s[m]))
  {
    m := 0;
    if s != [] && IsSpace(s[0]) {
      var k := TrimStartIs(s[1..]);
      m := k + 1;
      forall i | 0 <= i < m ensures IsListedSpace(s[i]) { if i > 0 { assert s[i] == s[1..][..k][i - 1]; } }
    }
  }

  lemma {:induction false} TrimEndIs(s: JsString) returns (n: nat)
    ensures n <= |s| && s[..n] == TrimEnd(s) && AllSpace(s[n..]) && (n > 0 ==> !IsListedSpace(s[n - 1]))
  {
    n := |s|;
    if s != [] && IsSpace(s[|s| - 1]) {
      var front := s[..|s| - 1];
      n := TrimEndIs(front);
      assert s[..n] == front[..n];
      forall i | n <= i < |s| ensures IsListedSpace(s[i]) { if i < |front| { assert s[i] == front[n..][i - n]; } }
    }
  }

  /** Trimming takes the white space off both ends, and nothing else. */
  lemma TrimIs(s: JsString) returns (m: nat, n: nat)
    ensures Surrounds(s, m, n) && s[m..n] == Trim(s)
  {
    m := TrimStartIs(s);
    var rest := TrimStart(s);
    var k := TrimEndIs(rest);
    n := m + k;
    assert s[m..n] == rest[..k];
    assert s[n..] == rest[k..];
    assert k > 0 ==> s[n - 1] == rest[k - 1];
  }

  /** Blank lines are those of white space only. */
  lemma BlankIsAllSpace(line: JsString)
    ensures Blank(line) <==> AllSpace(line)
  {
    var m, n := TrimIs(line);
    if m == n {
      assert line == line[..m] + line[n..];
    } else {
      assert line[m..n] != [];
    }
  }

  /** The line holds something, and the schema takes it. */
  ghost predicate IsValid<T>(schema: JsString -> Outcome<T>, line: JsString) {
    !AllSpace(line) && schema(Trim(line)).Valid?
  }

  /** The positions below n of the valid lines, ascending. */
  ghost function ValidAt<T>(schema: JsString -> Outcome<T>, lines: seq<JsString>, n: nat): (r: seq<nat>)
    requires n <= |lines|
    ensures forall k :: 0 <= k < |r| ==> r[k] < n && IsValid(schema, lines[r[k]])
    ensures forall i: nat :: i < n && IsValid(schema, lines[i]) ==> i in r
    ensures forall j, k :: 0 <= j < k < |r| ==> r[j] < r[k]
  {
    if n == 0 then [] else ValidAt(schema, lines, n - 1) + if IsValid(schema, lines[n - 1]) then [n - 1] else []
  }

  /** The error of a bad line: its number, and what is wrong with it. */
  ghost predicate Reports<T>(e: LineError, schema: JsString -> Outcome<T>, lines: seq<JsString>, i: nat)
    requires i < |lines|
  {
    && !AllSpace(lines[i]) && e.line == i + 1
    && match schema(Trim(lines[i]))
       case Valid(_) => false
       case BadSchema(details) => e.message == details
       case BadJson => e.message == Text("Invalid JSON")
  }

  /** Record k is what the schema makes of the k-th valid line. */
  lemma {:induction false} RecordsInOrder<T>(schema: JsString -> Outcome<T>, lines: seq<JsString>, n: nat)
    requires n <= |lines|
    ensures var valid, records := ValidAt(schema, lines, n), ValidRecords(schema, lines[..n]);
      |records| == |valid| && forall k :: 0 <= k < |valid| ==> schema(Trim(lines[valid[k]])) == Valid(records[k])
  {
    if n > 0 {
      RecordsInOrder(schema, lines, n - 1);
      PrefixStep(schema, lines, n - 1);
      BlankIsAllSpace(lines[n - 1]);
    }
  }

  ghost predicate ReportsSome<T>(e: LineError, schema: JsString -> Outcome<T>, lines: seq<JsString>, n: nat)
    requires n <= |lines|
  {
    exists i: nat :: i < n && Reports(e, schema, lines, i)
  }

  ghost predicate Ascending(errors: seq<LineError>, n: nat) {
    && (forall j, k :: 0 <= j < k < |errors| ==> errors[j].line < errors[k].line)
    && (forall k :: 0 <= k < |errors| ==> errors[k].line <= n)
  }

  /** The errors are those of the bad lines, each once, by ascending line number. */
  lemma {:induction false} ErrorsInOrder<T>(schema: JsString -> Outcome<T>, lines: seq<JsString>, n: nat)
    requires n <= |lines|
    ensures Ascending(InvalidLines(schema, lines[..n]), n)
    ensures forall e :: e in InvalidLines(schema, lines[..n]) <==> ReportsSome(e, schema, lines, n)
  {
    if n > 0 {
      ErrorsInOrder(schema, lines, n - 1);
      PrefixStep(schema, lines, n - 1);
      var before := InvalidLines(schema, lines[..n - 1]);
      var last := ErrorOf(schema, lines[n - 1], n);
      AscendingAppend(before, last, n);
      forall e ensures e in before + last <==> ReportsSome(e, schema, lines, n) { OneMoreLine(e, schema, lines, n); }
    }
  }

  lemma AscendingAppend(errors: seq<LineError>, last: seq<LineError>, n: nat)
    requires n > 0 && Ascending(errors, n - 1) && |last| <= 1 && (last != [] ==> last[0].line == n)
    ensures Ascending(errors + last, n)
  {
  }

  lemma OneMoreLine<T>(e: LineError, schema: JsString -> Outcome<T>, lines: seq<JsString>, n: nat)
    requires 0 < n <= |lines|
    ensures ReportsSome(e, schema, lines, n) <==>
      ReportsSome(e, schema, lines, n - 1) || e in ErrorOf(schema, lines[n - 1], n)
  {
    BlankIsAllSpace(lines[n - 1]);
    assert Reports(e, schema, lines, n - 1) <==> e in ErrorOf(schema, lines[n - 1], n);
  }

  /**
   * What a parse returns, line by line. It reads up to the first line with text that has `max` valid
   * lines before it, keeps the records and the errors of what it read, and counts the rest.
   */
  ghost predicate IsParse<T>(
    r: JsonlParseResult<T>, schema: JsString -> Outcome<T>, lines: seq<JsString>, max: nat, c: nat)
    requires c <= |lines|
  {
    var valid := ValidAt(schema, lines, c);
    && (forall i :: 0 <= i < c ==> AllSpace(lines[i]) || |ValidAt(schema, lines, i)| < max)
    && (c < |lines| ==> !AllSpace(lines[c]) && |valid| >= max)
    && |r.records| == |valid|
    && (forall k :: 0 <= k < |valid| ==> schema(Trim(lines[valid[k]])) == Valid(r.records[k]))
    && (forall e :: e in r.errors <==> ReportsSome(e, schema, lines, c))
    && Ascending(r.errors, c)
    && (r.truncated <==> c < |lines|)
    && r.truncatedCount == |set i | c <= i < |lines| && !AllSpace(lines[i])|
  }

  ghost predicate IsParseOf<T>(r: JsonlParseResult<T>, schema: JsString -> Outcome<T>, lines: seq<JsString>, max: nat) {
    exists c: nat :: c <= |lines| && IsParse(r, schema, lines, max, c)
  }

  lemma {:induction false} NonBlankCounts(lines: seq<JsString>, c: nat)
    requires c <= |lines|
    ensures NonBlank(lines[c..]) == |set i | c <= i < |lines| && !AllSpace(lines[i])|
    decreases |lines| - c
  {
    var all := set i | c <= i < |lines| && !AllSpace(lines[i]);
    if c == |lines| {
      assert all == {};
    } else {
      NonBlankCounts(lines, c + 1);
      NonBlankSplits(lines[c..], 1);
      BlankIsAllSpace(lines[c]);
      assert lines[c..][1..] == lines[c + 1..] && lines[c..][..1] == lines[c..c + 1];
      var one := lines[c..c + 1];
      assert one[..0] == [] && NonBlank(one) == if Blank(lines[c]) then 0 else 1;
      var rest := set i | c + 1 <= i < |lines| && !AllSpace(lines[i]);
      assert all == rest + if AllSpace(lines[c]) then {} else {c};
    }
  }

  lemma CutIs<T>(schema: JsString -> Outcome<T>, lines: seq<JsString>, max: nat)
    ensures var c := Cut(schema, lines, max);
      && (forall i :: 0 <= i < c ==> AllSpace(lines[i]) || |ValidAt(schema, lines, i)| < max)
      && (c < |lines| ==> !AllSpace(lines[c]) && |ValidAt(schema, lines, c)| >= max)
  {
    var c := Cut(schema, lines, max);
    forall i | 0 <= i < c ensures AllSpace(lines[i]) || |ValidAt(schema, lines, i)| < max {
      BlankIsAllSpace(lines[i]);
      RecordsInOrder(schema, lines, i);
      assert Blank(lines[i]) || |ValidRecords(schema, lines[..i])| < max;
    }
    if c < |lines| {
      BlankIsAllSpace(lines[c]);
      RecordsInOrder(schema, lines, c);
    }
  }

  lemma ParsedIsParse<T>(schema: JsString -> Outcome<T>, lines: seq<JsString>, max: nat)
    ensures IsParseOf(Parsed(schema, lines, max), schema, lines, max)
  {
    var c := Cut(schema, lines, max);
    CutIs(schema, lines, max);
    RecordsInOrder(schema, lines, c);
    ErrorsInOrder(schema, lines, c);
    NonBlankCounts(lines, c);
    assert IsParse(Parsed(schema, lines, max), schema, lines, max, c);
  }

  // ------------------------------------------------------------------- parser

  method ParseJsonlArtifact<T>(content: JsString, schema: JsString -> Outcome<T>, maxRecords: nat)
    returns (result: JsonlParseResult<T>)
    ensures result == Parsed(schema, Lines(content), maxRecords)
    ensures IsParseOf(result, schema, Lines(content), maxRecords)
  {
    var records: seq<T> := [];
    var errors: seq<LineError> := [];
    var lines := Lines(content);
    var truncated := false;
    var truncatedCount := 0;
    var i := 0;
    while i < |lines|
      invariant i <= |lines| && !truncated && truncatedCount == 0
      invariant records == ValidRecords(schema, lines[..i]) && errors == InvalidLines(schema, lines[..i])
      invariant Cut(schema, lines, maxRecords) == CutFrom(schema, lines, maxRecords, i)
    {
      if !Blank(lines[i]) && |records| >= maxRecords {
        truncated := true;
        truncatedCount := CountNonBlank(lines[i..]);
        break;
      }
      PrefixStep(schema, lines, i);
      records, errors := ParseLine(lines[i], i + 1, schema, records, errors);
      i := i + 1;
    }
    result := JsonlParseResult(records, errors, truncated, truncatedCount);
    ParsedIsParse(schema, lines, maxRecords);
  }

  method ParseLine<T>(
    raw: JsString, number: nat, schema: JsString -> Outcome<T>, before: seq<T>, errorsBefore: seq<LineError>)
    returns (records: seq<T>, errors: seq<LineError>)
    ensures records == before + RecordOf(schema, raw) && errors == errorsBefore + ErrorOf(schema, raw, number)
  {
    records, errors := before, errorsBefore;
    var line := Trim(raw);
    if line != [] {
      match schema(line)
      case Valid(record) => records := records + [record];
      case BadSchema(details) => errors := errors + [LineError(number, details)];
      case BadJson => errors := errors + [LineError(number, Text("Invalid JSON"))];
    }
  }

  method CountNonBlank(lines: seq<JsString>) returns (n: nat)
    ensures n == NonBlank(lines)
  {
    n := 0;
    var i := 0;
    while i < |lines|
      invariant i <= |lines| && n == NonBlank(lines[..i])
    {
      assert lines[..i + 1][..i] == lines[..i];
      if |Trim(lines[i])| > 0 { n := n + 1; }
      i := i + 1;
    }
    assert lines[..i] == lines;
  }

  // --------------------------------------------------------------- guarantees

  /** No non-blank line is lost: each is a record, an error, or counted as skipped. */
  lemma NothingIsLost<T>(schema: JsString -> Outcome<T>, lines: seq<JsString>, max: nat)
    ensures var r := Parsed(schema, lines, max);
            |r.records| + |r.errors| + r.truncatedCount == NonBlank(lines)
  {
    var c := Cut(schema, lines, max);
    EveryLineIsCounted(schema, lines[..c]);
    NonBlankSplits(lines, c);
  }

  lemma {:induction false} ValidRecordsGrow<T>(schema: JsString -> Outcome<T>, lines: seq<JsString>, i: nat)
    requires i <= |lines|
    ensures ValidRecords(schema, lines[..i]) <= ValidRecords(schema, lines)
    decreases |lines|
  {
    if i == |lines| {
      assert lines[..i] == lines;
    } else {
      var rest := lines[..|lines| - 1];
      ValidRecordsGrow(schema, rest, i);
      assert rest[..i] == lines[..i];
    }
  }

  lemma {:induction false} WithinCap<T>(schema: JsString -> Outcome<T>, lines: seq<JsString>, max: nat, c: nat)
    requires c <= |lines|
    requires forall k :: 0 <= k < c ==> Blank(lines[k]) || |ValidRecords(schema, lines[..k])| < max
    ensures |ValidRecords(schema, lines[..c])| <= max
  {
    if c > 0 {
      WithinCap(schema, lines, max, c - 1);
      assert lines[..c][..c - 1] == lines[..c - 1];
      assert Blank(lines[c - 1]) || |ValidRecords(schema, lines[..c - 1])| < max;
    }
  }

  /** The records are the first `max` valid ones of the whole file, in input order. */
  lemma RecordsAreTheFirst<T>(schema: JsString -> Outcome<T>, lines: seq<JsString>, max: nat)
    ensures var r, all := Parsed(schema, lines, max), ValidRecords(schema, lines);
            r.records == if |all| <= max then all else all[..max]
    ensures Parsed(schema, lines, max).truncated <==> Parsed(schema, lines, max).truncatedCount > 0
  {
    var c := Cut(schema, lines, max);
    var all := ValidRecords(schema, lines);
    WithinCap(schema, lines, max, c);
    ValidRecordsGrow(schema, lines, c);
    if c == |lines| {
      assert lines[..c] == lines && lines[c..] == [];
    } else {
      NonBlankStarts(lines[c..]);
      assert |ValidRecords(schema, lines[..c])| == max;
    }
  }

  lemma NonBlankStarts(lines: seq<JsString>)
    requires lines != [] && !Blank(lines[0])
    ensures NonBlank(lines) > 0
  {
    NonBlankSplits(lines, 1);
    assert lines[..1] == [lines[0]] && lines[..1][..0] == [];
  }
}

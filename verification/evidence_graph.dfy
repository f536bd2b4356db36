/** checkEvidenceGraph: references between claims, citations, relations and TRUST assessments. */
module EvidenceGraph {
  import opened Prelude
  import opened JsText
  import opened Findings

  datatype Claim = Claim(id: JsString, anchor: Option<JsString>)

  datatype Citation = Citation(
    id: JsString, doi: Option<JsString>, pmid: Option<JsString>, openAlexId: Option<JsString>)

  datatype Relation = Relation(claimId: JsString, citationId: JsString)

  datatype Rating = Ordinal(name: JsString) | NotAssessed | NotApplicable

  datatype Status = StatusAssessed | StatusNotAssessed | StatusNotApplicable

  datatype Criterion = Criterion(rating: Rating, status: Status)

  datatype ReviewStatus = UnverifiedImport | AgentProposed | HumanReviewed | Adjudicated | Superseded

  const TRUST_CRITERIA: nat := 10

  /** `criteria` in the order of TRUST_CRITERIA; an omitted criterion is None. */
  datatype Trust = Trust(
    claimId: JsString, citationId: JsString, criteria: seq<Option<Criterion>>, reviewStatus: ReviewStatus)

  datatype Located<+T> = Located(value: T, line: nat, path: JsString)

  /** The record lists of one repository. */
  datatype Artifacts = Artifacts(
    claims: seq<Located<Claim>>, citations: seq<Located<Citation>>,
    relations: seq<Located<Relation>>, trust: seq<Located<Trust>>)

  // --------------------------------------------------------------- pair keys

  const ARROW: CodeUnit := 0x2192

  function PairKey(claimId: JsString, citationId: JsString): JsString {
    claimId + [ARROW] + citationId
  }

  /** One claim id runs on, past an arrow, into what the other takes for the citation id. */
  ghost predicate Overlaps(a: JsString, b: JsString, c: JsString, d: JsString) {
    exists m: JsString :: a == c + [ARROW] + m && d == m + [ARROW] + b
  }

  lemma OverlapCollides(a: JsString, b: JsString, c: JsString, d: JsString)
    requires Overlaps(a, b, c, d)
    ensures PairKey(a, b) == PairKey(c, d)
  {
    var m: JsString :| a == c + [ARROW] + m && d == m + [ARROW] + b;
    assert PairKey(a, b) == c + [ARROW] + m + [ARROW] + b;
    assert PairKey(c, d) == c + [ARROW] + (m + [ARROW] + b);
  }

  lemma LongerOverlaps(a: JsString, b: JsString, c: JsString, d: JsString)
    requires PairKey(a, b) == PairKey(c, d) && |c| < |a|
    ensures Overlaps(a, b, c, d)
  {
    var key := PairKey(a, b);
    var m := a[|c| + 1..];
    assert key[..|c|] == a[..|c|] && key[..|c|] == c;
    assert key[|c|] == a[|c|] && key[|c|] == ARROW;
    assert a == c + [ARROW] + m;
    assert key[|c| + 1..] == m + [ARROW] + b && key[|c| + 1..] == d;
  }

  /** Two pairs share a key exactly when they are equal or overlap at an arrow. */
  lemma PairKeysCollideExactly(a: JsString, b: JsString, c: JsString, d: JsString)
    ensures PairKey(a, b) == PairKey(c, d) <==> (a == c && b == d) || Overlaps(a, b, c, d) || Overlaps(c, d, a, b)
  {
    if PairKey(a, b) == PairKey(c, d) {
      if |c| < |a| {
        LongerOverlaps(a, b, c, d);
      } else if |a| < |c| {
        LongerOverlaps(c, d, a, b);
      } else {
        CutAt(a + [ARROW], b, c + [ARROW], d);
        CutAt(a, [ARROW], c, [ARROW]);
      }
    }
    if Overlaps(a, b, c, d) { OverlapCollides(a, b, c, d); }
    if Overlaps(c, d, a, b) { OverlapCollides(c, d, a, b); }
  }

  /** No two pairs over given ids overlap at an arrow. */
  ghost predicate NoOverlap(claims: set<JsString>, citations: set<JsString>) {
    forall a, b, c, d | a in claims && c in claims && b in citations && d in citations :: !Overlaps(a, b, c, d)
  }

  /** Keys tell apart all pairs over given ids exactly when no two of those pairs overlap. */
  lemma PairKeysExactOverIds(claims: set<JsString>, citations: set<JsString>)
    ensures
      (forall a, b, c, d | a in claims && c in claims && b in citations && d in citations ::
         PairKey(a, b) == PairKey(c, d) ==> a == c && b == d)
      <==> NoOverlap(claims, citations)
  {
    forall a, b, c, d | a in claims && c in claims && b in citations && d in citations
      ensures PairKey(a, b) == PairKey(c, d) <==> (a == c && b == d) || Overlaps(a, b, c, d) || Overlaps(c, d, a, b)
      ensures Overlaps(a, b, c, d) ==> PairKey(a, b) == PairKey(c, d) && a != c
    {
      PairKeysCollideExactly(a, b, c, d);
      if Overlaps(a, b, c, d) { OverlapLengthens(a, b, c, d); }
    }
  }

  lemma OverlapLengthens(a: JsString, b: JsString, c: JsString, d: JsString)
    requires Overlaps(a, b, c, d)
    ensures |c| < |a| && |b| < |d|
  {
    var m: JsString :| a == c + [ARROW] + m && d == m + [ARROW] + b;
    assert |a| == |c| + 1 + |m| && |d| == |m| + 1 + |b|;
  }

  lemma ArrowInOverlap(a: JsString, b: JsString, c: JsString, d: JsString)
    requires Overlaps(a, b, c, d)
    ensures ARROW in a && ARROW in d
  {
    var m: JsString :| a == c + [ARROW] + m && d == m + [ARROW] + b;
    assert a[|c|] == ARROW && d[|m|] == ARROW;
  }

  // ---------------------------------------------------------------- findings

  const ARTIFACT_004: JsString := Text("ORATLAS-ARTIFACT-004")
  const CITATION_001: JsString := Text("ORATLAS-CITATION-001")
  const CLAIM_001: JsString := Text("ORATLAS-CLAIM-001")
  const CLAIM_002: JsString := Text("ORATLAS-CLAIM-002")
  const RELATION_001: JsString := Text("ORATLAS-RELATION-001")
  const TRUST_001: JsString := Text("ORATLAS-TRUST-001")
  const TRUST_002: JsString := Text("ORATLAS-TRUST-002")
  const TRUST_003: JsString := Text("ORATLAS-TRUST-003")
  const TRUST_004: JsString := Text("ORATLAS-TRUST-004")
  const TRUST_005: JsString := Text("ORATLAS-TRUST-005")

  function FlatMap<T>(f: T -> seq<Finding>, s: seq<T>): seq<Finding> {
    if s == [] then [] else FlatMap(f, s[..|s| - 1]) + f(s[|s| - 1])
  }

  lemma {:induction false} FlatMapErrors<T>(f: T -> seq<Finding>, s: seq<T>)
    ensures ErrorFree(FlatMap(f, s)) <==> forall i :: 0 <= i < |s| ==> ErrorFree(f(s[i]))
  {
    if s != [] {
      var rest := s[..|s| - 1];
      FlatMapErrors(f, rest);
      ErrorFreeConcat(FlatMap(f, rest), f(s[|s| - 1]));
      if forall i :: 0 <= i < |rest| ==> ErrorFree(f(rest[i])) {
        assert forall i :: 0 <= i < |rest| ==> s[i] == rest[i];
      }
    }
  }

  lemma ErrorFreeConcat(a: seq<Finding>, b: seq<Finding>)
    ensures ErrorFree(a + b) <==> ErrorFree(a) && ErrorFree(b)
  {
    assert forall f :: f in a ==> f in a + b;
    assert forall f :: f in b ==> f in a + b;
  }

  const CLAIM: JsString := Text("claim")
  const CITATION: JsString := Text("citation")
  const HUMAN_REVIEWED: JsString := Text("human-reviewed")
  const ADJUDICATED: JsString := Text("adjudicated")

  /** One finding at the line of a record. */
  function At(
    wording: Wording, rule: JsString, severity: Severity, parts: seq<JsString>, path: JsString, line: nat): Finding
  {
    Finding(rule, severity, wording.message(rule, parts), Some(path), Some(line), None, wording.suggestion(rule, parts))
  }

  /** `!value` for an optional string. */
  predicate Absent(value: Option<JsString>) {
    value.None? || value.value == []
  }

  function PathFor<T>(records: seq<Located<T>>, fallback: JsString): JsString {
    if |records| > 0 then records[0].path else fallback
  }

  function IdsBefore<T>(id: T -> JsString, records: seq<Located<T>>, n: nat): set<JsString>
    requires n <= |records|
  {
    if n == 0 then {} else IdsBefore(id, records, n - 1) + {id(records[n - 1].value)}
  }

  function DuplicateFindings<T>(
    w: Wording, id: T -> JsString, records: seq<Located<T>>, path: JsString, kind: JsString, n: nat): seq<Finding>
    requires n <= |records|
  {
    if n == 0 then []
    else
      var record := records[n - 1];
      DuplicateFindings(w, id, records, path, kind, n - 1)
      + if id(record.value) in IdsBefore(id, records, n - 1)
        then [At(w, ARTIFACT_004, Error, [kind, id(record.value)], path, record.line)] else []
  }

  function AnchorFindings(w: Wording, path: JsString, claim: Located<Claim>): seq<Finding> {
    if Absent(claim.value.anchor)
    then [At(w, CLAIM_001, Warning, [claim.value.id], path, claim.line)] else []
  }

  function IdentifierFindings(w: Wording, path: JsString, citation: Located<Citation>): seq<Finding> {
    if Absent(citation.value.doi) && Absent(citation.value.pmid) && Absent(citation.value.openAlexId)
    then [At(w, CITATION_001, Warning, [citation.value.id], path, citation.line)] else []
  }

  function RelationFindings(
    w: Wording, path: JsString, claimIds: set<JsString>, citationIds: set<JsString>, relation: Located<Relation>)
    : seq<Finding>
  {
    var missing :=
      (if relation.value.claimId !in claimIds then [CLAIM, relation.value.claimId] else [])
      + (if relation.value.citationId !in citationIds then [CITATION, relation.value.citationId] else []);
    if |missing| > 0 then [At(w, RELATION_001, Error, missing, path, relation.line)] else []
  }

  function UnrelatedFindings(w: Wording, path: JsString, related: set<JsString>, claim: Located<Claim>): seq<Finding> {
    if claim.value.id !in related
    then [At(w, CLAIM_002, Warning, [claim.value.id], path, claim.line)] else []
  }

  function ExpectedStatus(rating: Rating): Status {
    match rating case NotAssessed => StatusNotAssessed case NotApplicable => StatusNotApplicable case _ => StatusAssessed
  }

  function RatingText(rating: Rating): JsString {
    match rating
    case Ordinal(name) => name
    case NotAssessed => Text("not-assessed")
    case NotApplicable => Text("not-applicable")
  }

  function StatusText(status: Status): JsString {
    match status
    case StatusAssessed => Text("assessed")
    case StatusNotAssessed => Text("not-assessed")
    case StatusNotApplicable => Text("not-applicable")
  }

  function CriterionFindings(w: Wording, path: JsString, t: Located<Trust>, n: nat): seq<Finding>
    requires n <= |t.value.criteria|
  {
    if n == 0 then []
    else
      CriterionFindings(w, path, t, n - 1)
      + match t.value.criteria[n - 1]
        case None => [At(w, TRUST_003, Warning, [Key(t.value), Decimal(n - 1)], path, t.line)]
        case Some(c) =>
          if c.status != ExpectedStatus(c.rating)
          then [At(w, TRUST_004, Warning, [Decimal(n - 1), RatingText(c.rating), StatusText(c.status)],
                  path, t.line)] else []
  }

  function Key(t: Trust): JsString {
    PairKey(t.claimId, t.citationId)
  }

  function ReferenceFindings(
    w: Wording, path: JsString, claimIds: set<JsString>, citationIds: set<JsString>, pairs: set<JsString>,
    t: Located<Trust>): seq<Finding>
  {
    (if t.value.claimId !in claimIds || t.value.citationId !in citationIds
     then [At(w, TRUST_001, Error, [Key(t.value)], path, t.line)] else [])
    + if Key(t.value) !in pairs then [At(w, TRUST_002, Error, [Key(t.value)], path, t.line)] else []
  }

  function ReviewFindings(w: Wording, path: JsString, t: Located<Trust>): seq<Finding> {
    match t.value.reviewStatus
    case HumanReviewed => [At(w, TRUST_005, Notice, [HUMAN_REVIEWED], path, t.line)]
    case Adjudicated => [At(w, TRUST_005, Notice, [ADJUDICATED], path, t.line)]
    case _ => []
  }

  function TrustFindings(
    w: Wording, path: JsString, claimIds: set<JsString>, citationIds: set<JsString>, pairs: set<JsString>,
    t: Located<Trust>): seq<Finding>
  {
    ReferenceFindings(w, path, claimIds, citationIds, pairs, t)
    + CriterionFindings(w, path, t, |t.value.criteria|)
    + ReviewFindings(w, path, t)
  }

  // --------------------------------------------------------------- the whole

  function ClaimId(c: Claim): JsString { c.id }

  function CitationId(c: Citation): JsString { c.id }

  function RelatedClaimId(r: Relation): JsString { r.claimId }

  function RelationKey(r: Relation): JsString { PairKey(r.claimId, r.citationId) }

  function Ids<T>(id: T -> JsString, records: seq<Located<T>>): set<JsString> {
    IdsBefore(id, records, |records|)
  }

  function ClaimIds(a: Artifacts): set<JsString> { Ids(ClaimId, a.claims) }

  function CitationIds(a: Artifacts): set<JsString> { Ids(CitationId, a.citations) }

  function RelationKeys(a: Artifacts): set<JsString> { Ids(RelationKey, a.relations) }

  function RelatedClaims(a: Artifacts): set<JsString> { Ids(RelatedClaimId, a.relations) }

  function ClaimPath(a: Artifacts): JsString { PathFor(a.claims, Text("knowledge/claims.jsonl")) }

  function CitationPath(a: Artifacts): JsString { PathFor(a.citations, Text("knowledge/citations.jsonl")) }

  function RelationPath(a: Artifacts): JsString { PathFor(a.relations, Text("knowledge/relations.jsonl")) }

  function TrustPath(a: Artifacts): JsString { PathFor(a.trust, Text("knowledge/trust.jsonl")) }

  function AnchorCheck(w: Wording, a: Artifacts): Located<Claim> -> seq<Finding> {
    claim => AnchorFindings(w, ClaimPath(a), claim)
  }

  function IdentifierCheck(w: Wording, a: Artifacts): Located<Citation> -> seq<Finding> {
    citation => IdentifierFindings(w, CitationPath(a), citation)
  }

  function RelationCheck(w: Wording, a: Artifacts): Located<Relation> -> seq<Finding> {
    relation => RelationFindings(w, RelationPath(a), ClaimIds(a), CitationIds(a), relation)
  }

  function UnrelatedCheck(w: Wording, a: Artifacts): Located<Claim> -> seq<Finding> {
    claim => UnrelatedFindings(w, ClaimPath(a), RelatedClaims(a), claim)
  }

  function TrustCheck(w: Wording, a: Artifacts): Located<Trust> -> seq<Finding> {
    t => TrustFindings(w, TrustPath(a), ClaimIds(a), CitationIds(a), RelationKeys(a), t)
  }

  function DuplicateClaims(w: Wording, a: Artifacts): seq<Finding> {
    DuplicateFindings(w, ClaimId, a.claims, ClaimPath(a), CLAIM, |a.claims|)
  }

  function DuplicateCitations(w: Wording, a: Artifacts): seq<Finding> {
    DuplicateFindings(w, CitationId, a.citations, CitationPath(a), CITATION, |a.citations|)
  }

  /** Every finding, in the order the loops add them. */
  function GraphFindings(w: Wording, a: Artifacts): seq<Finding> {
    DuplicateClaims(w, a)
    + DuplicateCitations(w, a)
    + FlatMap(AnchorCheck(w, a), a.claims)
    + FlatMap(IdentifierCheck(w, a), a.citations)
    + FlatMap(RelationCheck(w, a), a.relations)
    + FlatMap(UnrelatedCheck(w, a), a.claims)
    + FlatMap(TrustCheck(w, a), a.trust)
  }

  // ------------------------------------------------- when nothing is an error

  ghost predicate RelationsResolve(a: Artifacts) {
    forall i :: 0 <= i < |a.relations| ==>
      EndpointsKnown(a, a.relations[i].value.claimId, a.relations[i].value.citationId)
  }

  ghost predicate EndpointsKnown(a: Artifacts, claimId: JsString, citationId: JsString) {
    Known(ClaimId, a.claims, claimId) && Known(CitationId, a.citations, citationId)
  }

  ghost predicate AssessmentResolves(a: Artifacts, t: Trust) {
    EndpointsKnown(a, t.claimId, t.citationId) && Known(RelationKey, a.relations, Key(t))
  }

  /** Ids are unique, every reference resolves, and every assessment has the key of some relation. */
  ghost predicate SoundByKey(a: Artifacts) {
    && DistinctIds(ClaimId, a.claims) && DistinctIds(CitationId, a.citations) && RelationsResolve(a)
    && forall i :: 0 <= i < |a.trust| ==> AssessmentResolves(a, a.trust[i].value)
  }

  /** The same with what the last condition is meant to say. */
  ghost predicate Sound(a: Artifacts) {
    && DistinctIds(ClaimId, a.claims) && DistinctIds(CitationId, a.citations) && RelationsResolve(a)
    && forall i :: 0 <= i < |a.trust| ==>
         EndpointsKnown(a, a.trust[i].value.claimId, a.trust[i].value.citationId) && HasRelation(a, a.trust[i].value)
  }

  ghost predicate DistinctIds<T(!new)>(id: T -> JsString, records: seq<Located<T>>) {
    forall i, j :: 0 <= i < j < |records| ==> id(records[i].value) != id(records[j].value)
  }

  ghost predicate Known<T(!new)>(id: T -> JsString, records: seq<Located<T>>, x: JsString) {
    exists i :: 0 <= i < |records| && id(records[i].value) == x
  }

  ghost predicate HasRelation(a: Artifacts, t: Trust) {
    exists i :: 0 <= i < |a.relations|
             && a.relations[i].value.claimId == t.claimId && a.relations[i].value.citationId == t.citationId
  }

  lemma {:induction false} IdsBeforeAre<T(!new)>(id: T -> JsString, records: seq<Located<T>>, n: nat, x: JsString)
    requires n <= |records|
    ensures x in IdsBefore(id, records, n) <==> exists i :: 0 <= i < n && id(records[i].value) == x
  {
    if n > 0 { IdsBeforeAre(id, records, n - 1, x); }
  }

  lemma IdsAreKnown<T(!new)>(id: T -> JsString, records: seq<Located<T>>, x: JsString)
    ensures x in Ids(id, records) <==> Known(id, records, x)
  {
    IdsBeforeAre(id, records, |records|, x);
  }

  lemma {:induction false} DuplicatesAreErrors<T(!new)>(
    w: Wording, id: T -> JsString, records: seq<Located<T>>, path: JsString, kind: JsString, n: nat)
    requires n <= |records|
    ensures ErrorFree(DuplicateFindings(w, id, records, path, kind, n))
       <==> forall i, j :: 0 <= i < j < n ==> id(records[i].value) != id(records[j].value)
  {
    if n > 0 {
      DuplicatesAreErrors(w, id, records, path, kind, n - 1);
      IdsBeforeAre(id, records, n - 1, id(records[n - 1].value));
      var last := [At(w, ARTIFACT_004, Error, [kind, id(records[n - 1].value)], path, records[n - 1].line)];
      assert last[0] in last;
      ErrorFreeConcat(DuplicateFindings(w, id, records, path, kind, n - 1), last);
      ErrorFreeConcat(DuplicateFindings(w, id, records, path, kind, n - 1), []);
    }
  }

  lemma {:induction false} CriteriaAreWarnings(w: Wording, path: JsString, t: Located<Trust>, n: nat)
    requires n <= |t.value.criteria|
    ensures ErrorFree(CriterionFindings(w, path, t, n))
  {
    if n > 0 { CriteriaAreWarnings(w, path, t, n - 1); }
  }

  lemma TrustErrors(w: Wording, a: Artifacts, t: Located<Trust>)
    ensures ErrorFree(TrustCheck(w, a)(t)) <==> AssessmentResolves(a, t.value)
  {
    IdsAreKnown(ClaimId, a.claims, t.value.claimId);
    IdsAreKnown(CitationId, a.citations, t.value.citationId);
    IdsAreKnown(RelationKey, a.relations, Key(t.value));
    CriteriaAreWarnings(w, TrustPath(a), t, |t.value.criteria|);
    var references := ReferenceFindings(w, TrustPath(a), ClaimIds(a), CitationIds(a), RelationKeys(a), t);
    var criteria := CriterionFindings(w, TrustPath(a), t, |t.value.criteria|);
    ErrorFreeConcat(references, criteria);
    ErrorFreeConcat(references + criteria, ReviewFindings(w, TrustPath(a), t));
    if |references| > 0 { assert references[0] in references; }
  }

  lemma RelationErrors(w: Wording, a: Artifacts, r: Located<Relation>)
    ensures ErrorFree(RelationCheck(w, a)(r)) <==> EndpointsKnown(a, r.value.claimId, r.value.citationId)
  {
    IdsAreKnown(ClaimId, a.claims, r.value.claimId);
    IdsAreKnown(CitationId, a.citations, r.value.citationId);
    var findings := RelationCheck(w, a)(r);
    if |findings| > 0 { assert findings[0] in findings; }
  }

  lemma AllRelationErrors(w: Wording, a: Artifacts)
    ensures ErrorFree(FlatMap(RelationCheck(w, a), a.relations)) <==> RelationsResolve(a)
  {
    FlatMapErrors(RelationCheck(w, a), a.relations);
    forall i | 0 <= i < |a.relations|
      ensures ErrorFree(RelationCheck(w, a)(a.relations[i])) <==>
              EndpointsKnown(a, a.relations[i].value.claimId, a.relations[i].value.citationId)
    {
      RelationErrors(w, a, a.relations[i]);
    }
  }

  lemma AllTrustErrors(w: Wording, a: Artifacts)
    ensures ErrorFree(FlatMap(TrustCheck(w, a), a.trust)) <==>
            forall i :: 0 <= i < |a.trust| ==> AssessmentResolves(a, a.trust[i].value)
  {
    FlatMapErrors(TrustCheck(w, a), a.trust);
    forall i | 0 <= i < |a.trust|
      ensures ErrorFree(TrustCheck(w, a)(a.trust[i])) <==> AssessmentResolves(a, a.trust[i].value)
    {
      TrustErrors(w, a, a.trust[i]);
    }
  }

  lemma OtherChecksOnlyWarn(w: Wording, a: Artifacts)
    ensures ErrorFree(FlatMap(AnchorCheck(w, a), a.claims))
    ensures ErrorFree(FlatMap(IdentifierCheck(w, a), a.citations))
    ensures ErrorFree(FlatMap(UnrelatedCheck(w, a), a.claims))
  {
    FlatMapErrors(AnchorCheck(w, a), a.claims);
    FlatMapErrors(IdentifierCheck(w, a), a.citations);
    FlatMapErrors(UnrelatedCheck(w, a), a.claims);
  }

  /** The check adds no error exactly when the artifacts are sound up to pair keys. */
  lemma NoErrorsExactly(w: Wording, a: Artifacts)
    ensures ErrorFree(GraphFindings(w, a)) <==> SoundByKey(a)
  {
    DuplicatesAreErrors(w, ClaimId, a.claims, ClaimPath(a), CLAIM, |a.claims|);
    DuplicatesAreErrors(w, CitationId, a.citations, CitationPath(a), CITATION, |a.citations|);
    OtherChecksOnlyWarn(w, a);
    AllRelationErrors(w, a);
    AllTrustErrors(w, a);
    SevenParts(
      DuplicateClaims(w, a), DuplicateCitations(w, a), FlatMap(AnchorCheck(w, a), a.claims),
      FlatMap(IdentifierCheck(w, a), a.citations), FlatMap(RelationCheck(w, a), a.relations),
      FlatMap(UnrelatedCheck(w, a), a.claims), FlatMap(TrustCheck(w, a), a.trust));
  }

  lemma SevenParts(
    a: seq<Finding>, b: seq<Finding>, c: seq<Finding>, d: seq<Finding>, e: seq<Finding>, f: seq<Finding>,
    g: seq<Finding>)
    ensures ErrorFree(a + b + c + d + e + f + g) <==>
              && ErrorFree(a) && ErrorFree(b) && ErrorFree(c) && ErrorFree(d)
              && ErrorFree(e) && ErrorFree(f) && ErrorFree(g)
  {
    ErrorFreeConcat(a, b);
    ErrorFreeConcat(a + b, c);
    ErrorFreeConcat(a + b + c, d);
    ErrorFreeConcat(a + b + c + d, e);
    ErrorFreeConcat(a + b + c + d + e, f);
    ErrorFreeConcat(a + b + c + d + e + f, g);
  }

  // -------------------------------------------------- what the keys are worth

  /** No assessment names a pair that overlaps the pair of a relation at an arrow. */
  ghost predicate PairsApart(a: Artifacts) {
    forall i, j | 0 <= i < |a.trust| && 0 <= j < |a.relations| :: Apart(a.trust[i].value, a.relations[j].value)
  }

  ghost predicate Apart(t: Trust, r: Relation) {
    && !Overlaps(t.claimId, t.citationId, r.claimId, r.citationId)
    && !Overlaps(r.claimId, r.citationId, t.claimId, t.citationId)
  }

  /** Where no pairs overlap, the check finds no error exactly when every assessment has its relation. */
  lemma ApartKeysAreExact(w: Wording, a: Artifacts)
    requires PairsApart(a)
    ensures SoundByKey(a) <==> Sound(a)
    ensures ErrorFree(GraphFindings(w, a)) <==> Sound(a)
  {
    forall i | 0 <= i < |a.trust|
      ensures Known(RelationKey, a.relations, Key(a.trust[i].value)) <==> HasRelation(a, a.trust[i].value)
    {
      var t := a.trust[i].value;
      if Known(RelationKey, a.relations, Key(t)) {
        var r :| 0 <= r < |a.relations| && RelationKey(a.relations[r].value) == Key(t);
        assert Apart(t, a.relations[r].value);
        PairKeysCollideExactly(t.claimId, t.citationId, a.relations[r].value.claimId, a.relations[r].value.citationId);
      }
      if HasRelation(a, t) {
        var r :| 0 <= r < |a.relations|
              && a.relations[r].value.claimId == t.claimId && a.relations[r].value.citationId == t.citationId;
        assert RelationKey(a.relations[r].value) == Key(t);
      }
    }
    NoErrorsExactly(w, a);
  }

  /** Every id that a claim, a citation, a relation or an assessment uses is one of the given ones. */
  ghost predicate Over(x: Artifacts, claims: set<JsString>, citations: set<JsString>) {
    && (forall i :: 0 <= i < |x.claims| ==> x.claims[i].value.id in claims)
    && (forall i :: 0 <= i < |x.citations| ==> x.citations[i].value.id in citations)
    && (forall i :: 0 <= i < |x.relations| ==>
          x.relations[i].value.claimId in claims && x.relations[i].value.citationId in citations)
    && forall i :: 0 <= i < |x.trust| ==>
         x.trust[i].value.claimId in claims && x.trust[i].value.citationId in citations
  }

  /** Claims `a` and `c`, citations `b` and `d`, a relation for one pair, an assessment for the other. */
  function Colliding(a: JsString, b: JsString, c: JsString, d: JsString): Artifacts {
    Artifacts(
      [Located(Claim(a, None), 1, []), Located(Claim(c, None), 2, [])],
      [Located(Citation(b, None, None, None), 1, []), Located(Citation(d, None, None, None), 2, [])],
      [Located(Relation(c, d), 1, [])],
      [Located(Trust(a, b, seq(TRUST_CRITERIA, _ => None), AgentProposed), 1, [])])
  }

  /** Any overlap lets an assessment that has no relation go unreported. */
  lemma OverlapHidesAMissingRelation(w: Wording, a: JsString, b: JsString, c: JsString, d: JsString)
    requires Overlaps(a, b, c, d)
    ensures ErrorFree(GraphFindings(w, Colliding(a, b, c, d))) && !Sound(Colliding(a, b, c, d))
  {
    var x := Colliding(a, b, c, d);
    var t, r := x.trust[0].value, x.relations[0].value;
    OverlapCollides(a, b, c, d);
    OverlapLengthens(a, b, c, d);
    assert RelationKey(r) == Key(t);
    assert ClaimId(x.claims[0].value) == a && ClaimId(x.claims[1].value) == c;
    assert CitationId(x.citations[0].value) == b && CitationId(x.citations[1].value) == d;
    assert Known(RelationKey, x.relations, Key(t));
    assert !HasRelation(x, t);
    assert SoundByKey(x);
    NoErrorsExactly(w, x);
  }

  lemma CollidingIsOver(
    a: JsString, b: JsString, c: JsString, d: JsString, claims: set<JsString>, citations: set<JsString>)
    requires a in claims && c in claims && b in citations && d in citations
    ensures Over(Colliding(a, b, c, d), claims, citations)
  {
  }

  lemma NoOverlapKeepsApart(x: Artifacts, claims: set<JsString>, citations: set<JsString>)
    requires NoOverlap(claims, citations) && Over(x, claims, citations)
    ensures PairsApart(x)
  {
    forall i, j | 0 <= i < |x.trust| && 0 <= j < |x.relations| ensures Apart(x.trust[i].value, x.relations[j].value) {
      var t, r := x.trust[i].value, x.relations[j].value;
      assert t.claimId in claims && r.claimId in claims && t.citationId in citations && r.citationId in citations;
    }
  }

  /**
   * The check is right about all artifacts over given ids exactly when no two
   * pairs of those ids overlap at an arrow.
   */
  lemma CheckIsExactOverIds(w: Wording, claims: set<JsString>, citations: set<JsString>)
    ensures NoOverlap(claims, citations)
       <==> forall x | Over(x, claims, citations) :: ErrorFree(GraphFindings(w, x)) <==> Sound(x)
  {
    if NoOverlap(claims, citations) {
      forall x | Over(x, claims, citations) ensures ErrorFree(GraphFindings(w, x)) <==> Sound(x) {
        NoOverlapKeepsApart(x, claims, citations);
        ApartKeysAreExact(w, x);
      }
    } else {
      var a, b, c, d :|
        a in claims && c in claims && b in citations && d in citations && Overlaps(a, b, c, d);
      OverlapHidesAMissingRelation(w, a, b, c, d);
      CollidingIsOver(a, b, c, d, claims, citations);
    }
  }

  /** No arrow in any claim id an assessment or a relation names, or in any such citation id. */
  ghost predicate ArrowFree(a: Artifacts) {
    || ((forall i :: 0 <= i < |a.relations| ==> ARROW !in a.relations[i].value.claimId)
        && forall i :: 0 <= i < |a.trust| ==> ARROW !in a.trust[i].value.claimId)
    || ((forall i :: 0 <= i < |a.relations| ==> ARROW !in a.relations[i].value.citationId)
        && forall i :: 0 <= i < |a.trust| ==> ARROW !in a.trust[i].value.citationId)
  }

  /** Without arrows no pairs overlap. */
  lemma ArrowFreeKeysAreExact(w: Wording, a: Artifacts)
    requires ArrowFree(a)
    ensures PairsApart(a)
    ensures SoundByKey(a) <==> Sound(a)
  {
    forall i, j | 0 <= i < |a.trust| && 0 <= j < |a.relations| ensures Apart(a.trust[i].value, a.relations[j].value) {
      var t, r := a.trust[i].value, a.relations[j].value;
      if Overlaps(t.claimId, t.citationId, r.claimId, r.citationId) {
        ArrowInOverlap(t.claimId, t.citationId, r.claimId, r.citationId);
      }
      if Overlaps(r.claimId, r.citationId, t.claimId, t.citationId) {
        ArrowInOverlap(r.claimId, r.citationId, t.claimId, t.citationId);
      }
    }
    ApartKeysAreExact(w, a);
  }

  /** Claims `a→b` and `a`, citations `c` and `b→c`. */
  function ArrowArtifacts(): Artifacts {
    var a, b, c: JsString := [97], [98], [99];
    Colliding(a + [ARROW] + b, c, a, b + [ARROW] + c)
  }

  /** With arrows an assessment that has no relation can go unreported. */
  lemma ArrowsHideAMissingRelation(w: Wording)
    ensures ErrorFree(GraphFindings(w, ArrowArtifacts())) && !Sound(ArrowArtifacts())
  {
    var a, b, c: JsString := [97], [98], [99];
    assert Overlaps(a + [ARROW] + b, c, a, b + [ARROW] + c);
    OverlapHidesAMissingRelation(w, a + [ARROW] + b, c, a, b + [ARROW] + c);
  }
}

/**
 * What the graph check reports, fault by fault, said of the artifacts alone: which
 * rule, severity, parts, file and line stand for which fault, and that nothing
 * else is reported and nothing twice.
 */
module GraphExact {
  import opened Prelude
  import opened JsText
  import opened Sorting
  import opened Findings
  import G = EvidenceGraph

  // ---------------------------------------------------------------- the faults

  function Report(
    w: Wording, rule: JsString, severity: Severity, parts: seq<JsString>, path: JsString, line: nat): Finding
  {
    Finding(
      ruleId := rule, severity := severity, message := w.message(rule, parts), path := Some(path), line := Some(line),
      column := None, suggestion := w.suggestion(rule, parts))
  }

  const DUPLICATE_ID: JsString := Text("ORATLAS-ARTIFACT-004")
  const NO_ANCHOR: JsString := Text("ORATLAS-CLAIM-001")
  const NO_RELATION: JsString := Text("ORATLAS-CLAIM-002")
  const NO_IDENTIFIER: JsString := Text("ORATLAS-CITATION-001")
  const UNKNOWN_ENDPOINT: JsString := Text("ORATLAS-RELATION-001")
  const UNKNOWN_SUBJECT: JsString := Text("ORATLAS-TRUST-001")
  const UNRELATED_SUBJECT: JsString := Text("ORATLAS-TRUST-002")
  const OMITTED_CRITERION: JsString := Text("ORATLAS-TRUST-003")
  const WRONG_STATUS: JsString := Text("ORATLAS-TRUST-004")
  const UNVERIFIED_REVIEW: JsString := Text("ORATLAS-TRUST-005")
  const A_CLAIM: JsString := Text("claim")
  const A_CITATION: JsString := Text("citation")

  function FileOf<T>(records: seq<G.Located<T>>, name: JsString): JsString {
    if records == [] then name else records[0].path
  }

  function ClaimFile(a: G.Artifacts): JsString { FileOf(a.claims, Text("knowledge/claims.jsonl")) }

  function CitationFile(a: G.Artifacts): JsString { FileOf(a.citations, Text("knowledge/citations.jsonl")) }

  function RelationFile(a: G.Artifacts): JsString { FileOf(a.relations, Text("knowledge/relations.jsonl")) }

  function TrustFile(a: G.Artifacts): JsString { FileOf(a.trust, Text("knowledge/trust.jsonl")) }

  predicate Missing(value: Option<JsString>) {
    value == None || value == Some([])
  }

  ghost predicate HasClaim(a: G.Artifacts, id: JsString) {
    exists k :: 0 <= k < |a.claims| && a.claims[k].value.id == id
  }

  ghost predicate HasCitation(a: G.Artifacts, id: JsString) {
    exists k :: 0 <= k < |a.citations| && a.citations[k].value.id == id
  }

  /** Some relation has the same claim id, arrow and citation id, read as one text. */
  ghost predicate HasPair(a: G.Artifacts, claimId: JsString, citationId: JsString) {
    exists k :: 0 <= k < |a.relations|
             && a.relations[k].value.claimId + [0x2192] + a.relations[k].value.citationId
                == claimId + [0x2192] + citationId
  }

  ghost predicate RepeatsClaim(a: G.Artifacts, j: nat) {
    j < |a.claims| && exists i :: 0 <= i < j && a.claims[i].value.id == a.claims[j].value.id
  }

  ghost predicate RepeatsCitation(a: G.Artifacts, j: nat) {
    j < |a.citations| && exists i :: 0 <= i < j && a.citations[i].value.id == a.citations[j].value.id
  }

  ghost predicate LacksAnchor(a: G.Artifacts, i: nat) {
    i < |a.claims| && Missing(a.claims[i].value.anchor)
  }

  ghost predicate LacksIdentifier(a: G.Artifacts, i: nat) {
    && i < |a.citations|
    && Missing(a.citations[i].value.doi) && Missing(a.citations[i].value.pmid) && Missing(a.citations[i].value.openAlexId)
  }

  ghost predicate LacksEndpoint(a: G.Artifacts, i: nat) {
    && i < |a.relations|
    && !(HasClaim(a, a.relations[i].value.claimId) && HasCitation(a, a.relations[i].value.citationId))
  }

  ghost function MissingEndpoints(a: G.Artifacts, r: G.Relation): seq<JsString> {
    (if HasClaim(a, r.claimId) then [] else [A_CLAIM, r.claimId])
    + if HasCitation(a, r.citationId) then [] else [A_CITATION, r.citationId]
  }

  ghost predicate LacksRelation(a: G.Artifacts, i: nat) {
    i < |a.claims| && forall k :: 0 <= k < |a.relations| ==> a.relations[k].value.claimId != a.claims[i].value.id
  }

  ghost predicate LacksSubject(a: G.Artifacts, i: nat) {
    i < |a.trust| && !(HasClaim(a, a.trust[i].value.claimId) && HasCitation(a, a.trust[i].value.citationId))
  }

  ghost predicate LacksPair(a: G.Artifacts, i: nat) {
    i < |a.trust| && !HasPair(a, a.trust[i].value.claimId, a.trust[i].value.citationId)
  }

  ghost predicate OmitsCriterion(t: G.Trust, k: nat) {
    k < |t.criteria| && t.criteria[k] == None
  }

  /** An ordinal rating goes with `assessed`, the two other ratings with the status of the same name. */
  predicate StatusFits(c: G.Criterion) {
    || (c.rating.Ordinal? && c.status == G.StatusAssessed)
    || (c.rating == G.NotAssessed && c.status == G.StatusNotAssessed)
    || (c.rating == G.NotApplicable && c.status == G.StatusNotApplicable)
  }

  ghost predicate MisstatesCriterion(t: G.Trust, k: nat) {
    k < |t.criteria| && t.criteria[k].Some? && !StatusFits(t.criteria[k].value)
  }

  function RatingWord(c: G.Criterion): JsString {
    match c.rating
    case Ordinal(name) => name
    case NotAssessed => Text("not-assessed")
    case NotApplicable => Text("not-applicable")
  }

  function StatusWord(c: G.Criterion): JsString {
    match c.status
    case StatusAssessed => Text("assessed")
    case StatusNotAssessed => Text("not-assessed")
    case StatusNotApplicable => Text("not-applicable")
  }

  function PairText(t: G.Trust): JsString {
    t.claimId + [0x2192] + t.citationId
  }

  // ------------------------------------------------------- faults and findings

  ghost predicate AboutClaims(w: Wording, a: G.Artifacts, f: Finding) {
    exists i: nat :: i < |a.claims| &&
      var c := a.claims[i];
      || (RepeatsClaim(a, i) && f == Report(w, DUPLICATE_ID, Error, [A_CLAIM, c.value.id], ClaimFile(a), c.line))
      || (LacksAnchor(a, i) && f == Report(w, NO_ANCHOR, Warning, [c.value.id], ClaimFile(a), c.line))
      || (LacksRelation(a, i) && f == Report(w, NO_RELATION, Warning, [c.value.id], ClaimFile(a), c.line))
  }

  ghost predicate AboutCitations(w: Wording, a: G.Artifacts, f: Finding) {
    exists i: nat :: i < |a.citations| &&
      var c := a.citations[i];
      || (RepeatsCitation(a, i) && f == Report(w, DUPLICATE_ID, Error, [A_CITATION, c.value.id], CitationFile(a), c.line))
      || (LacksIdentifier(a, i) && f == Report(w, NO_IDENTIFIER, Warning, [c.value.id], CitationFile(a), c.line))
  }

  ghost predicate AboutRelations(w: Wording, a: G.Artifacts, f: Finding) {
    exists i: nat :: i < |a.relations| &&
      var r := a.relations[i];
      LacksEndpoint(a, i) && f == Report(w, UNKNOWN_ENDPOINT, Error, MissingEndpoints(a, r.value), RelationFile(a), r.line)
  }

  ghost predicate AboutReferences(w: Wording, a: G.Artifacts, i: nat, f: Finding)
    requires i < |a.trust|
  {
    var t := a.trust[i];
    || (LacksSubject(a, i) && f == Report(w, UNKNOWN_SUBJECT, Error, [PairText(t.value)], TrustFile(a), t.line))
    || (LacksPair(a, i) && f == Report(w, UNRELATED_SUBJECT, Error, [PairText(t.value)], TrustFile(a), t.line))
  }

  ghost predicate AboutCriterion(w: Wording, t: G.Located<G.Trust>, path: JsString, k: nat, f: Finding)
    requires k < |t.value.criteria|
  {
    || (OmitsCriterion(t.value, k)
        && f == Report(w, OMITTED_CRITERION, Warning, [PairText(t.value), Decimal(k)], path, t.line))
    || (MisstatesCriterion(t.value, k)
        && f == Report(w, WRONG_STATUS, Warning,
                       [Decimal(k), RatingWord(t.value.criteria[k].value), StatusWord(t.value.criteria[k].value)],
                       path, t.line))
  }

  ghost predicate AboutReview(w: Wording, t: G.Located<G.Trust>, path: JsString, f: Finding) {
    || (t.value.reviewStatus == G.HumanReviewed
        && f == Report(w, UNVERIFIED_REVIEW, Notice, [Text("human-reviewed")], path, t.line))
    || (t.value.reviewStatus == G.Adjudicated
        && f == Report(w, UNVERIFIED_REVIEW, Notice, [Text("adjudicated")], path, t.line))
  }

  ghost predicate AboutTrust(w: Wording, a: G.Artifacts, f: Finding) {
    exists i: nat :: i < |a.trust| && AboutAssessment(w, a, i, f)
  }

  ghost predicate AboutAssessment(w: Wording, a: G.Artifacts, i: nat, f: Finding)
    requires i < |a.trust|
  {
    || AboutReferences(w, a, i, f)
    || (exists k: nat :: k < |a.trust[i].value.criteria| && AboutCriterion(w, a.trust[i], TrustFile(a), k, f))
    || AboutReview(w, a.trust[i], TrustFile(a), f)
  }

  // ------------------------------------------------------- the checks one by one

  lemma RulesAre()
    ensures G.ARTIFACT_004 == DUPLICATE_ID && G.CLAIM_001 == NO_ANCHOR && G.CLAIM_002 == NO_RELATION
    ensures G.CITATION_001 == NO_IDENTIFIER && G.RELATION_001 == UNKNOWN_ENDPOINT
    ensures G.TRUST_001 == UNKNOWN_SUBJECT && G.TRUST_002 == UNRELATED_SUBJECT && G.TRUST_003 == OMITTED_CRITERION
    ensures G.TRUST_004 == WRONG_STATUS && G.TRUST_005 == UNVERIFIED_REVIEW
    ensures G.CLAIM == A_CLAIM && G.CITATION == A_CITATION
  {
  }

  lemma FilesAre(a: G.Artifacts)
    ensures G.ClaimPath(a) == ClaimFile(a) && G.CitationPath(a) == CitationFile(a)
    ensures G.RelationPath(a) == RelationFile(a) && G.TrustPath(a) == TrustFile(a)
  {
  }

  lemma {:induction false} InFlatMap<T>(f: T -> seq<Finding>, s: seq<T>, x: Finding)
    ensures x in G.FlatMap(f, s) <==> exists i: nat :: i < |s| && x in f(s[i])
  {
    if s != [] {
      var rest, last := s[..|s| - 1], s[|s| - 1];
      InFlatMap(f, rest, x);
      assert s == rest + [last];
      if x in G.FlatMap(f, rest) {
        var i: nat :| i < |rest| && x in f(rest[i]);
        assert s[i] == rest[i];
      }
      if exists i: nat :: i < |s| && x in f(s[i]) {
        var i: nat :| i < |s| && x in f(s[i]);
        if i < |rest| { assert rest[i] == s[i]; }
      }
    }
  }

  lemma {:induction false} InDuplicates<T(!new)>(
    w: Wording, id: T -> JsString, records: seq<G.Located<T>>, path: JsString, kind: JsString, n: nat, x: Finding)
    requires n <= |records|
    ensures x in G.DuplicateFindings(w, id, records, path, kind, n) <==>
      exists j: nat :: j < n && (exists i :: 0 <= i < j && id(records[i].value) == id(records[j].value))
                    && x == Report(w, DUPLICATE_ID, Error, [kind, id(records[j].value)], path, records[j].line)
  {
    if n > 0 {
      InDuplicates(w, id, records, path, kind, n - 1, x);
      G.IdsBeforeAre(id, records, n - 1, id(records[n - 1].value));
      RulesAre();
    }
  }

  lemma HasClaimIsKnown(a: G.Artifacts, id: JsString)
    ensures id in G.ClaimIds(a) <==> HasClaim(a, id)
  {
    G.IdsAreKnown(G.ClaimId, a.claims, id);
    if HasClaim(a, id) {
      var k :| 0 <= k < |a.claims| && a.claims[k].value.id == id;
      assert G.ClaimId(a.claims[k].value) == id;
    }
  }

  lemma HasCitationIsKnown(a: G.Artifacts, id: JsString)
    ensures id in G.CitationIds(a) <==> HasCitation(a, id)
  {
    G.IdsAreKnown(G.CitationId, a.citations, id);
    if HasCitation(a, id) {
      var k :| 0 <= k < |a.citations| && a.citations[k].value.id == id;
      assert G.CitationId(a.citations[k].value) == id;
    }
  }

  lemma HasPairIsKnown(a: G.Artifacts, t: G.Trust)
    ensures G.Key(t) in G.RelationKeys(a) <==> HasPair(a, t.claimId, t.citationId)
  {
    G.IdsAreKnown(G.RelationKey, a.relations, G.Key(t));
    if HasPair(a, t.claimId, t.citationId) {
      var k :| 0 <= k < |a.relations|
            && a.relations[k].value.claimId + [0x2192] + a.relations[k].value.citationId
               == t.claimId + [0x2192] + t.citationId;
      assert G.RelationKey(a.relations[k].value) == G.Key(t);
    }
  }

  lemma RelatedAre(a: G.Artifacts, id: JsString)
    ensures id in G.RelatedClaims(a) <==> exists k :: 0 <= k < |a.relations| && a.relations[k].value.claimId == id
  {
    G.IdsAreKnown(G.RelatedClaimId, a.relations, id);
    if exists k :: 0 <= k < |a.relations| && a.relations[k].value.claimId == id {
      var k :| 0 <= k < |a.relations| && a.relations[k].value.claimId == id;
      assert G.RelatedClaimId(a.relations[k].value) == id;
    }
  }

  lemma InAnchors(w: Wording, a: G.Artifacts, x: Finding)
    ensures x in G.FlatMap(G.AnchorCheck(w, a), a.claims) <==>
      exists i: nat :: i < |a.claims| && LacksAnchor(a, i)
        && x == Report(w, NO_ANCHOR, Warning, [a.claims[i].value.id], ClaimFile(a), a.claims[i].line)
  {
    InFlatMap(G.AnchorCheck(w, a), a.claims, x);
    RulesAre();
    FilesAre(a);
  }

  lemma InIdentifiers(w: Wording, a: G.Artifacts, x: Finding)
    ensures x in G.FlatMap(G.IdentifierCheck(w, a), a.citations) <==>
      exists i: nat :: i < |a.citations| && LacksIdentifier(a, i)
        && x == Report(w, NO_IDENTIFIER, Warning, [a.citations[i].value.id], CitationFile(a), a.citations[i].line)
  {
    InFlatMap(G.IdentifierCheck(w, a), a.citations, x);
    RulesAre();
    FilesAre(a);
  }

  lemma OneRelation(w: Wording, a: G.Artifacts, i: nat)
    requires i < |a.relations|
    ensures var r := a.relations[i];
      G.RelationCheck(w, a)(r) == if LacksEndpoint(a, i)
        then [Report(w, UNKNOWN_ENDPOINT, Error, MissingEndpoints(a, r.value), RelationFile(a), r.line)] else []
  {
    HasClaimIsKnown(a, a.relations[i].value.claimId);
    HasCitationIsKnown(a, a.relations[i].value.citationId);
    RulesAre();
    FilesAre(a);
  }

  lemma InRelations(w: Wording, a: G.Artifacts, x: Finding)
    ensures x in G.FlatMap(G.RelationCheck(w, a), a.relations) <==> AboutRelations(w, a, x)
  {
    InFlatMap(G.RelationCheck(w, a), a.relations, x);
    forall i: nat | i < |a.relations|
      ensures x in G.RelationCheck(w, a)(a.relations[i]) <==>
        LacksEndpoint(a, i)
        && x == Report(
                  w, UNKNOWN_ENDPOINT, Error, MissingEndpoints(a, a.relations[i].value), RelationFile(a),
                  a.relations[i].line)
    {
      OneRelation(w, a, i);
    }
  }

  lemma InUnrelated(w: Wording, a: G.Artifacts, x: Finding)
    ensures x in G.FlatMap(G.UnrelatedCheck(w, a), a.claims) <==>
      exists i: nat :: i < |a.claims| && LacksRelation(a, i)
        && x == Report(w, NO_RELATION, Warning, [a.claims[i].value.id], ClaimFile(a), a.claims[i].line)
  {
    InFlatMap(G.UnrelatedCheck(w, a), a.claims, x);
    RulesAre();
    FilesAre(a);
    forall i: nat | i < |a.claims|
      ensures a.claims[i].value.id !in G.RelatedClaims(a) <==> LacksRelation(a, i)
    {
      RelatedAre(a, a.claims[i].value.id);
    }
  }

  lemma InReferences(w: Wording, a: G.Artifacts, i: nat, x: Finding)
    requires i < |a.trust|
    ensures x in G.ReferenceFindings(w, TrustFile(a), G.ClaimIds(a), G.CitationIds(a), G.RelationKeys(a), a.trust[i])
       <==> AboutReferences(w, a, i, x)
  {
    HasClaimIsKnown(a, a.trust[i].value.claimId);
    HasCitationIsKnown(a, a.trust[i].value.citationId);
    HasPairIsKnown(a, a.trust[i].value);
    RulesAre();
  }

  lemma OneCriterion(w: Wording, path: JsString, t: G.Located<G.Trust>, n: nat, x: Finding)
    requires n < |t.value.criteria|
    ensures x in G.CriterionFindings(w, path, t, n + 1) <==>
              x in G.CriterionFindings(w, path, t, n) || AboutCriterion(w, t, path, n, x)
  {
    RulesAre();
  }

  lemma {:induction false} InCriteria(w: Wording, path: JsString, t: G.Located<G.Trust>, n: nat, x: Finding)
    requires n <= |t.value.criteria|
    ensures x in G.CriterionFindings(w, path, t, n) <==> exists k: nat :: k < n && AboutCriterion(w, t, path, k, x)
  {
    if n > 0 {
      InCriteria(w, path, t, n - 1, x);
      OneCriterion(w, path, t, n - 1, x);
    }
  }

  lemma InReview(w: Wording, path: JsString, t: G.Located<G.Trust>, x: Finding)
    ensures x in G.ReviewFindings(w, path, t) <==> AboutReview(w, t, path, x)
  {
    RulesAre();
  }

  lemma InAssessment(w: Wording, a: G.Artifacts, i: nat, x: Finding)
    requires i < |a.trust|
    ensures x in G.TrustCheck(w, a)(a.trust[i]) <==> AboutAssessment(w, a, i, x)
  {
    FilesAre(a);
    InReferences(w, a, i, x);
    InCriteria(w, TrustFile(a), a.trust[i], |a.trust[i].value.criteria|, x);
    InReview(w, TrustFile(a), a.trust[i], x);
  }

  lemma InTrust(w: Wording, a: G.Artifacts, x: Finding)
    ensures x in G.FlatMap(G.TrustCheck(w, a), a.trust) <==> AboutTrust(w, a, x)
  {
    InFlatMap(G.TrustCheck(w, a), a.trust, x);
    forall i: nat | i < |a.trust| ensures x in G.TrustCheck(w, a)(a.trust[i]) <==> AboutAssessment(w, a, i, x) {
      InAssessment(w, a, i, x);
    }
  }

  lemma InDuplicateClaims(w: Wording, a: G.Artifacts, x: Finding)
    ensures x in G.DuplicateClaims(w, a) <==>
      exists i: nat :: i < |a.claims| && RepeatsClaim(a, i)
        && x == Report(w, DUPLICATE_ID, Error, [A_CLAIM, a.claims[i].value.id], ClaimFile(a), a.claims[i].line)
  {
    InDuplicates(w, G.ClaimId, a.claims, ClaimFile(a), A_CLAIM, |a.claims|, x);
    RulesAre();
    FilesAre(a);
  }

  lemma InDuplicateCitations(w: Wording, a: G.Artifacts, x: Finding)
    ensures x in G.DuplicateCitations(w, a) <==>
      exists i: nat :: i < |a.citations| && RepeatsCitation(a, i)
        && x == Report(
                  w, DUPLICATE_ID, Error, [A_CITATION, a.citations[i].value.id], CitationFile(a), a.citations[i].line)
  {
    InDuplicates(w, G.CitationId, a.citations, CitationFile(a), A_CITATION, |a.citations|, x);
    RulesAre();
    FilesAre(a);
  }

  lemma InSeven(a: seq<Finding>, b: seq<Finding>, c: seq<Finding>, d: seq<Finding>, e: seq<Finding>, f: seq<Finding>,
                g: seq<Finding>, x: Finding)
    ensures x in a + b + c + d + e + f + g <==>
              x in a || x in b || x in c || x in d || x in e || x in f || x in g
  {
  }

  lemma ClaimsTogether(w: Wording, a: G.Artifacts, x: Finding)
    ensures AboutClaims(w, a, x) <==>
      || x in G.DuplicateClaims(w, a)
      || x in G.FlatMap(G.AnchorCheck(w, a), a.claims)
      || x in G.FlatMap(G.UnrelatedCheck(w, a), a.claims)
  {
    InDuplicateClaims(w, a, x);
    InAnchors(w, a, x);
    InUnrelated(w, a, x);
  }

  lemma CitationsTogether(w: Wording, a: G.Artifacts, x: Finding)
    ensures AboutCitations(w, a, x) <==>
      x in G.DuplicateCitations(w, a) || x in G.FlatMap(G.IdentifierCheck(w, a), a.citations)
  {
    InDuplicateCitations(w, a, x);
    InIdentifiers(w, a, x);
  }

  /** The finding stands for a fault of the artifacts. */
  ghost predicate Due(w: Wording, a: G.Artifacts, x: Finding) {
    AboutClaims(w, a, x) || AboutCitations(w, a, x) || AboutRelations(w, a, x) || AboutTrust(w, a, x)
  }

  /** A finding is reported exactly when it stands for a fault of the artifacts. */
  lemma ReportsExactlyTheFaults(w: Wording, a: G.Artifacts, x: Finding)
    ensures x in G.GraphFindings(w, a) <==> Due(w, a, x)
  {
    ClaimsTogether(w, a, x);
    CitationsTogether(w, a, x);
    InRelations(w, a, x);
    InTrust(w, a, x);
    InSeven(
      G.DuplicateClaims(w, a), G.DuplicateCitations(w, a), G.FlatMap(G.AnchorCheck(w, a), a.claims),
      G.FlatMap(G.IdentifierCheck(w, a), a.citations), G.FlatMap(G.RelationCheck(w, a), a.relations),
      G.FlatMap(G.UnrelatedCheck(w, a), a.claims), G.FlatMap(G.TrustCheck(w, a), a.trust), x);
  }

  // ------------------------------------------------------------ nothing twice

  ghost function Tally(n: nat, p: nat -> bool): nat {
    if n == 0 then 0 else Tally(n - 1, p) + if p(n - 1) then 1 else 0
  }

  ghost function One(b: bool): nat {
    if b then 1 else 0
  }

  ghost function WhereRepeatsClaim(a: G.Artifacts): nat -> bool { (i: nat) => RepeatsClaim(a, i) }

  ghost function WhereRepeatsCitation(a: G.Artifacts): nat -> bool { (i: nat) => RepeatsCitation(a, i) }

  ghost function WhereLacksAnchor(a: G.Artifacts): nat -> bool { (i: nat) => LacksAnchor(a, i) }

  ghost function WhereLacksIdentifier(a: G.Artifacts): nat -> bool { (i: nat) => LacksIdentifier(a, i) }

  ghost function WhereLacksEndpoint(a: G.Artifacts): nat -> bool { (i: nat) => LacksEndpoint(a, i) }

  ghost function WhereLacksRelation(a: G.Artifacts): nat -> bool { (i: nat) => LacksRelation(a, i) }

  ghost function WhereOmitsCriterion(t: G.Trust): nat -> bool { (k: nat) => OmitsCriterion(t, k) }

  ghost function WhereMisstatesCriterion(t: G.Trust): nat -> bool { (k: nat) => MisstatesCriterion(t, k) }

  ghost function AssessmentFaults(a: G.Artifacts, i: nat): nat
    requires i < |a.trust|
  {
    var t := a.trust[i].value;
    One(LacksSubject(a, i)) + One(LacksPair(a, i))
    + Tally(|t.criteria|, WhereOmitsCriterion(t)) + Tally(|t.criteria|, WhereMisstatesCriterion(t))
    + One(t.reviewStatus == G.HumanReviewed || t.reviewStatus == G.Adjudicated)
  }

  ghost function TrustFaults(a: G.Artifacts, n: nat): nat
    requires n <= |a.trust|
  {
    if n == 0 then 0 else TrustFaults(a, n - 1) + AssessmentFaults(a, n - 1)
  }

  /** The number of faults of the artifacts. */
  ghost function Faults(a: G.Artifacts): nat {
    Tally(|a.claims|, WhereRepeatsClaim(a)) + Tally(|a.citations|, WhereRepeatsCitation(a))
    + Tally(|a.claims|, WhereLacksAnchor(a)) + Tally(|a.citations|, WhereLacksIdentifier(a))
    + Tally(|a.relations|, WhereLacksEndpoint(a)) + Tally(|a.claims|, WhereLacksRelation(a))
    + TrustFaults(a, |a.trust|)
  }

  lemma {:induction false} FlatMapTally<T>(f: T -> seq<Finding>, s: seq<T>, n: nat, p: nat -> bool)
    requires n <= |s| && forall i: nat :: i < n ==> |f(s[i])| == One(p(i))
    ensures |G.FlatMap(f, s[..n])| == Tally(n, p)
  {
    if n > 0 {
      FlatMapTally(f, s, n - 1, p);
      assert s[..n][..n - 1] == s[..n - 1];
    }
  }

  ghost function WhereSeenBefore<T>(id: T -> JsString, records: seq<G.Located<T>>): nat -> bool {
    (i: nat) => i < |records| && id(records[i].value) in G.IdsBefore(id, records, i)
  }

  lemma {:induction false} DuplicatesTally<T(!new)>(
    w: Wording, id: T -> JsString, records: seq<G.Located<T>>, path: JsString, kind: JsString, n: nat)
    requires n <= |records|
    ensures |G.DuplicateFindings(w, id, records, path, kind, n)| == Tally(n, WhereSeenBefore(id, records))
  {
    if n > 0 { DuplicatesTally(w, id, records, path, kind, n - 1); }
  }

  lemma {:induction false} SameTally(n: nat, p: nat -> bool, q: nat -> bool)
    requires forall i: nat :: i < n ==> (p(i) <==> q(i))
    ensures Tally(n, p) == Tally(n, q)
  {
    if n > 0 { SameTally(n - 1, p, q); }
  }

  lemma {:induction false} CriteriaTally(w: Wording, path: JsString, t: G.Located<G.Trust>, n: nat)
    requires n <= |t.value.criteria|
    ensures |G.CriterionFindings(w, path, t, n)|
         == Tally(n, WhereOmitsCriterion(t.value)) + Tally(n, WhereMisstatesCriterion(t.value))
  {
    if n > 0 { CriteriaTally(w, path, t, n - 1); }
  }

  lemma AssessmentTally(w: Wording, a: G.Artifacts, i: nat)
    requires i < |a.trust|
    ensures |G.TrustCheck(w, a)(a.trust[i])| == AssessmentFaults(a, i)
  {
    HasClaimIsKnown(a, a.trust[i].value.claimId);
    HasCitationIsKnown(a, a.trust[i].value.citationId);
    HasPairIsKnown(a, a.trust[i].value);
    CriteriaTally(w, G.TrustPath(a), a.trust[i], |a.trust[i].value.criteria|);
  }

  lemma {:induction false} TrustTally(w: Wording, a: G.Artifacts, n: nat)
    requires n <= |a.trust|
    ensures |G.FlatMap(G.TrustCheck(w, a), a.trust[..n])| == TrustFaults(a, n)
  {
    if n > 0 {
      TrustTally(w, a, n - 1);
      AssessmentTally(w, a, n - 1);
      assert a.trust[..n][..n - 1] == a.trust[..n - 1];
    }
  }

  lemma RepeatedClaimsTally(w: Wording, a: G.Artifacts)
    ensures |G.DuplicateClaims(w, a)| == Tally(|a.claims|, WhereRepeatsClaim(a))
  {
    var seen := WhereSeenBefore(G.ClaimId, a.claims);
    forall j: nat | j < |a.claims| ensures RepeatsClaim(a, j) <==> seen(j) {
      G.IdsBeforeAre(G.ClaimId, a.claims, j, a.claims[j].value.id);
      assert RepeatsClaim(a, j) <==> G.ClaimId(a.claims[j].value) in G.IdsBefore(G.ClaimId, a.claims, j);
    }
    DuplicatesTally(w, G.ClaimId, a.claims, G.ClaimPath(a), G.CLAIM, |a.claims|);
    SameTally(|a.claims|, WhereRepeatsClaim(a), seen);
  }

  lemma RepeatedCitationsTally(w: Wording, a: G.Artifacts)
    ensures |G.DuplicateCitations(w, a)| == Tally(|a.citations|, WhereRepeatsCitation(a))
  {
    var seen := WhereSeenBefore(G.CitationId, a.citations);
    forall j: nat | j < |a.citations| ensures RepeatsCitation(a, j) <==> seen(j) {
      G.IdsBeforeAre(G.CitationId, a.citations, j, a.citations[j].value.id);
      assert RepeatsCitation(a, j) <==> G.CitationId(a.citations[j].value) in G.IdsBefore(G.CitationId, a.citations, j);
    }
    DuplicatesTally(w, G.CitationId, a.citations, G.CitationPath(a), G.CITATION, |a.citations|);
    SameTally(|a.citations|, WhereRepeatsCitation(a), seen);
  }

  lemma AnchorsTally(w: Wording, a: G.Artifacts)
    ensures |G.FlatMap(G.AnchorCheck(w, a), a.claims)| == Tally(|a.claims|, WhereLacksAnchor(a))
  {
    FlatMapTally(G.AnchorCheck(w, a), a.claims, |a.claims|, WhereLacksAnchor(a));
    assert a.claims[..|a.claims|] == a.claims;
  }

  lemma IdentifiersTally(w: Wording, a: G.Artifacts)
    ensures |G.FlatMap(G.IdentifierCheck(w, a), a.citations)| == Tally(|a.citations|, WhereLacksIdentifier(a))
  {
    FlatMapTally(G.IdentifierCheck(w, a), a.citations, |a.citations|, WhereLacksIdentifier(a));
    assert a.citations[..|a.citations|] == a.citations;
  }

  lemma UnrelatedTally(w: Wording, a: G.Artifacts)
    ensures |G.FlatMap(G.UnrelatedCheck(w, a), a.claims)| == Tally(|a.claims|, WhereLacksRelation(a))
  {
    forall i: nat | i < |a.claims|
      ensures |G.UnrelatedCheck(w, a)(a.claims[i])| == One(LacksRelation(a, i))
    {
      RelatedAre(a, a.claims[i].value.id);
    }
    FlatMapTally(G.UnrelatedCheck(w, a), a.claims, |a.claims|, WhereLacksRelation(a));
    assert a.claims[..|a.claims|] == a.claims;
  }

  lemma RelationsTally(w: Wording, a: G.Artifacts)
    ensures |G.FlatMap(G.RelationCheck(w, a), a.relations)| == Tally(|a.relations|, WhereLacksEndpoint(a))
  {
    forall i: nat | i < |a.relations| ensures |G.RelationCheck(w, a)(a.relations[i])| == One(LacksEndpoint(a, i)) {
      OneRelation(w, a, i);
    }
    FlatMapTally(G.RelationCheck(w, a), a.relations, |a.relations|, WhereLacksEndpoint(a));
    assert a.relations[..|a.relations|] == a.relations;
  }

  /** There are as many findings as faults. */
  lemma ReportsEachFaultOnce(w: Wording, a: G.Artifacts)
    ensures |G.GraphFindings(w, a)| == Faults(a)
  {
    RepeatedClaimsTally(w, a);
    AnchorsTally(w, a);
    UnrelatedTally(w, a);
    RepeatedCitationsTally(w, a);
    IdentifiersTally(w, a);
    RelationsTally(w, a);
    TrustTally(w, a, |a.trust|);
    assert a.trust[..|a.trust|] == a.trust;
  }

  lemma SortKeepsEach(s: seq<Finding>, f: Finding)
    ensures f in Sort(FindingLeq, s) <==> f in s
  {
    assert f in Sort(FindingLeq, s) <==> f in multiset(Sort(FindingLeq, s));
    assert f in s <==> f in multiset(s);
  }

  lemma KeptAre(added: seq<Finding>, f: Finding)
    requires |added| < 1_000
    ensures f in Kept(added) <==> exists x :: x in added && f == Cleaned(x)
  {
    if f in Kept(added) {
      var i :| 0 <= i < |Kept(added)| && Kept(added)[i] == f;
      assert added[i] in added;
    }
    if exists x :: x in added && f == Cleaned(x) {
      var x :| x in added && f == Cleaned(x);
      var i :| 0 <= i < |added| && added[i] == x;
      assert Kept(added)[i] == f;
    }
  }

  /** Below the cap the finished report lists exactly the findings that are due, cleaned. */
  lemma ReportIsDue(w: Wording, a: G.Artifacts)
    requires Faults(a) < 1_000
    ensures var report := Sort(FindingLeq, Unsorted(w, G.GraphFindings(w, a)));
      && |report| == Faults(a)
      && forall f :: f in report <==> exists x :: Due(w, a, x) && f == Cleaned(x)
  {
    var found := G.GraphFindings(w, a);
    ReportsEachFaultOnce(w, a);
    assert Unsorted(w, found) == Kept(found);
    forall x ensures x in found <==> Due(w, a, x) { ReportsExactlyTheFaults(w, a, x); }
    forall f ensures f in Sort(FindingLeq, Kept(found)) <==> exists x :: Due(w, a, x) && f == Cleaned(x) {
      SortKeepsEach(Kept(found), f);
      KeptAre(found, f);
    }
  }
}

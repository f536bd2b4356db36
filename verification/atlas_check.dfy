/** The loops of checkEvidenceGraph and the pass/fail result of a whole check. */
module AtlasCheck {
  import opened Prelude
  import opened JsText
  import opened Sorting
  import opened Findings
  import opened EvidenceGraph
  import X = GraphExact

  method UniqueIds<T(!new)>(
    sink: FindingSink, id: T -> JsString, records: seq<Located<T>>, path: JsString, kind: JsString)
    returns (ids: set<JsString>)
    requires sink.Valid()
    modifies sink
    ensures sink.Valid()
    ensures sink.added == old(sink.added) + DuplicateFindings(sink.wording, id, records, path, kind, |records|)
    ensures ids == Ids(id, records)
  {
    ids := {};
    ghost var start := sink.added;
    ghost var found: seq<Finding> := [];
    assert start + [] == start;
    var i := 0;
    while i < |records|
      invariant i <= |records| && sink.Valid() && sink.added == start + found
      invariant ids == IdsBefore(id, records, i)
      invariant found == DuplicateFindings(sink.wording, id, records, path, kind, i)
    {
      var record := records[i];
      if id(record.value) in ids {
        var duplicate :=
          At(sink.wording, ARTIFACT_004, Error, [kind, id(record.value)], path, record.line);
        Regroup(start, found, [duplicate]);
        sink.Add(duplicate);
        found := found + [duplicate];
      }
      ids := ids + {id(record.value)};
      i := i + 1;
    }
  }

  method CheckAnchors(sink: FindingSink, a: Artifacts)
    requires sink.Valid()
    modifies sink
    ensures sink.Valid() && sink.added == old(sink.added) + FlatMap(AnchorCheck(sink.wording, a), a.claims)
  {
    ghost var start, found: seq<Finding> := sink.added, [];
    assert start + [] == start;
    var i := 0;
    while i < |a.claims|
      invariant i <= |a.claims| && sink.Valid() && sink.added == start + found
      invariant found == FlatMap(AnchorCheck(sink.wording, a), a.claims[..i])
    {
      var claim := a.claims[i];
      FlatMapSnoc(AnchorCheck(sink.wording, a), a.claims, i);
      if Absent(claim.value.anchor) {
        var finding :=
          At(sink.wording, CLAIM_001, Warning, [claim.value.id], ClaimPath(a), claim.line);
        Regroup(start, found, [finding]);
        sink.Add(finding);
        found := found + [finding];
      }
      i := i + 1;
    }
    assert a.claims[..i] == a.claims;
  }

  method CheckIdentifiers(sink: FindingSink, a: Artifacts)
    requires sink.Valid()
    modifies sink
    ensures sink.Valid() && sink.added == old(sink.added) + FlatMap(IdentifierCheck(sink.wording, a), a.citations)
  {
    ghost var start, found: seq<Finding> := sink.added, [];
    assert start + [] == start;
    var i := 0;
    while i < |a.citations|
      invariant i <= |a.citations| && sink.Valid() && sink.added == start + found
      invariant found == FlatMap(IdentifierCheck(sink.wording, a), a.citations[..i])
    {
      var citation := a.citations[i];
      FlatMapSnoc(IdentifierCheck(sink.wording, a), a.citations, i);
      if Absent(citation.value.doi) && Absent(citation.value.pmid) && Absent(citation.value.openAlexId) {
        var finding :=
          At(sink.wording, CITATION_001, Warning, [citation.value.id], CitationPath(a), citation.line);
        Regroup(start, found, [finding]);
        sink.Add(finding);
        found := found + [finding];
      }
      i := i + 1;
    }
    assert a.citations[..i] == a.citations;
  }

  method CheckRelations(sink: FindingSink, a: Artifacts, claimIds: set<JsString>, citationIds: set<JsString>)
    returns (relationPairs: set<JsString>, relatedClaimIds: set<JsString>)
    requires sink.Valid() && claimIds == ClaimIds(a) && citationIds == CitationIds(a)
    modifies sink
    ensures sink.Valid() && sink.added == old(sink.added) + FlatMap(RelationCheck(sink.wording, a), a.relations)
    ensures relationPairs == RelationKeys(a) && relatedClaimIds == RelatedClaims(a)
  {
    relationPairs, relatedClaimIds := {}, {};
    ghost var start, found: seq<Finding> := sink.added, [];
    assert start + [] == start;
    var i := 0;
    while i < |a.relations|
      invariant i <= |a.relations| && sink.Valid() && sink.added == start + found
      invariant found == FlatMap(RelationCheck(sink.wording, a), a.relations[..i])
      invariant relationPairs == IdsBefore(RelationKey, a.relations, i)
      invariant relatedClaimIds == IdsBefore(RelatedClaimId, a.relations, i)
    {
      var relation := a.relations[i];
      FlatMapSnoc(RelationCheck(sink.wording, a), a.relations, i);
      relationPairs := relationPairs + {PairKey(relation.value.claimId, relation.value.citationId)};
      relatedClaimIds := relatedClaimIds + {relation.value.claimId};
      ghost var more := RelationFindings(sink.wording, RelationPath(a), claimIds, citationIds, relation);
      CheckRelation(sink, RelationPath(a), claimIds, citationIds, relation);
      Regroup(start, found, more);
      found := found + more;
      i := i + 1;
    }
    assert a.relations[..i] == a.relations;
  }

  method CheckRelation(
    sink: FindingSink, path: JsString, claimIds: set<JsString>, citationIds: set<JsString>, relation: Located<Relation>)
    requires sink.Valid()
    modifies sink
    ensures sink.Valid()
    ensures sink.added == old(sink.added) + RelationFindings(sink.wording, path, claimIds, citationIds, relation)
  {
    var missing :=
      (if relation.value.claimId !in claimIds then [CLAIM, relation.value.claimId] else [])
      + (if relation.value.citationId !in citationIds then [CITATION, relation.value.citationId] else []);
    if |missing| > 0 {
      sink.Add(At(sink.wording, RELATION_001, Error, missing, path, relation.line));
    } else {
      assert sink.added + [] == sink.added;
    }
  }

  method CheckRelated(sink: FindingSink, a: Artifacts, relatedClaimIds: set<JsString>)
    requires sink.Valid() && relatedClaimIds == RelatedClaims(a)
    modifies sink
    ensures sink.Valid() && sink.added == old(sink.added) + FlatMap(UnrelatedCheck(sink.wording, a), a.claims)
  {
    ghost var start, found: seq<Finding> := sink.added, [];
    assert start + [] == start;
    var i := 0;
    while i < |a.claims|
      invariant i <= |a.claims| && sink.Valid() && sink.added == start + found
      invariant found == FlatMap(UnrelatedCheck(sink.wording, a), a.claims[..i])
    {
      var claim := a.claims[i];
      FlatMapSnoc(UnrelatedCheck(sink.wording, a), a.claims, i);
      if claim.value.id !in relatedClaimIds {
        var finding :=
          At(sink.wording, CLAIM_002, Warning, [claim.value.id], ClaimPath(a), claim.line);
        Regroup(start, found, [finding]);
        sink.Add(finding);
        found := found + [finding];
      }
      i := i + 1;
    }
    assert a.claims[..i] == a.claims;
  }

  method CheckReferences(
    sink: FindingSink, path: JsString, claimIds: set<JsString>, citationIds: set<JsString>, pairs: set<JsString>,
    t: Located<Trust>)
    requires sink.Valid()
    modifies sink
    ensures sink.Valid()
    ensures sink.added == old(sink.added) + ReferenceFindings(sink.wording, path, claimIds, citationIds, pairs, t)
  {
    ghost var start := sink.added;
    var pair := PairKey(t.value.claimId, t.value.citationId);
    if t.value.claimId !in claimIds || t.value.citationId !in citationIds {
      sink.Add(At(sink.wording, TRUST_001, Error, [pair], path, t.line));
    }
    if pair !in pairs {
      sink.Add(At(sink.wording, TRUST_002, Error, [pair], path, t.line));
    }
    assert sink.added == start + ReferenceFindings(sink.wording, path, claimIds, citationIds, pairs, t);
  }

  method CheckCriteria(sink: FindingSink, path: JsString, t: Located<Trust>)
    requires sink.Valid()
    modifies sink
    ensures sink.Valid()
    ensures sink.added == old(sink.added) + CriterionFindings(sink.wording, path, t, |t.value.criteria|)
  {
    ghost var start, found: seq<Finding> := sink.added, [];
    assert start + [] == start;
    var n := 0;
    while n < |t.value.criteria|
      invariant n <= |t.value.criteria| && sink.Valid() && sink.added == start + found
      invariant found == CriterionFindings(sink.wording, path, t, n)
    {
      var value := t.value.criteria[n];
      if value.None? {
        var finding :=
          At(sink.wording, TRUST_003, Warning,
             [PairKey(t.value.claimId, t.value.citationId), Decimal(n)], path, t.line);
        Regroup(start, found, [finding]);
        sink.Add(finding);
        found := found + [finding];
      } else if value.value.status != ExpectedStatus(value.value.rating) {
        var finding :=
          At(sink.wording, TRUST_004, Warning,
             [Decimal(n), RatingText(value.value.rating), StatusText(value.value.status)], path, t.line);
        Regroup(start, found, [finding]);
        sink.Add(finding);
        found := found + [finding];
      }
      n := n + 1;
    }
  }

  method CheckReview(sink: FindingSink, path: JsString, t: Located<Trust>)
    requires sink.Valid()
    modifies sink
    ensures sink.Valid() && sink.added == old(sink.added) + ReviewFindings(sink.wording, path, t)
  {
    match t.value.reviewStatus {
      case HumanReviewed =>
        sink.Add(At(sink.wording, TRUST_005, Notice, [HUMAN_REVIEWED], path, t.line));
      case Adjudicated =>
        sink.Add(At(sink.wording, TRUST_005, Notice, [ADJUDICATED], path, t.line));
      case _ => assert sink.added + [] == sink.added;
    }
  }

  method CheckTrust(
    sink: FindingSink, a: Artifacts, claimIds: set<JsString>, citationIds: set<JsString>, pairs: set<JsString>)
    requires sink.Valid() && claimIds == ClaimIds(a) && citationIds == CitationIds(a) && pairs == RelationKeys(a)
    modifies sink
    ensures sink.Valid() && sink.added == old(sink.added) + FlatMap(TrustCheck(sink.wording, a), a.trust)
  {
    ghost var start, found: seq<Finding> := sink.added, [];
    assert start + [] == start;
    var i := 0;
    while i < |a.trust|
      invariant i <= |a.trust| && sink.Valid() && sink.added == start + found
      invariant found == FlatMap(TrustCheck(sink.wording, a), a.trust[..i])
    {
      CheckAssessment(sink, TrustPath(a), claimIds, citationIds, pairs, a.trust[i]);
      ghost var more := TrustFindings(sink.wording, TrustPath(a), claimIds, citationIds, pairs, a.trust[i]);
      FlatMapSnoc(TrustCheck(sink.wording, a), a.trust, i);
      Regroup(start, found, more);
      found := found + more;
      i := i + 1;
    }
    assert a.trust[..i] == a.trust;
  }

  method CheckAssessment(
    sink: FindingSink, path: JsString, claimIds: set<JsString>, citationIds: set<JsString>, pairs: set<JsString>,
    t: Located<Trust>)
    requires sink.Valid()
    modifies sink
    ensures sink.Valid()
    ensures sink.added == old(sink.added) + TrustFindings(sink.wording, path, claimIds, citationIds, pairs, t)
  {
    ghost var start := sink.added;
    ghost var references := ReferenceFindings(sink.wording, path, claimIds, citationIds, pairs, t);
    ghost var criteria := CriterionFindings(sink.wording, path, t, |t.value.criteria|);
    CheckReferences(sink, path, claimIds, citationIds, pairs, t);
    CheckCriteria(sink, path, t);
    Regroup(start, references, criteria);
    CheckReview(sink, path, t);
    Regroup(start, references + criteria, ReviewFindings(sink.wording, path, t));
  }

  method RunChecks(sink: FindingSink, a: Artifacts)
    requires sink.Valid()
    modifies sink
    ensures sink.Valid() && sink.added == old(sink.added) + GraphFindings(sink.wording, a)
  {
    ghost var start, w := sink.added, sink.wording;
    ghost var f1, f2 := DuplicateClaims(w, a), DuplicateCitations(w, a);
    var claimIds := UniqueIds(sink, ClaimId, a.claims, ClaimPath(a), CLAIM);
    var citationIds := UniqueIds(sink, CitationId, a.citations, CitationPath(a), CITATION);
    Regroup(start, f1, f2);
    CheckAnchors(sink, a);
    ghost var f3 := FlatMap(AnchorCheck(w, a), a.claims);
    Regroup(start, f1 + f2, f3);
    CheckIdentifiers(sink, a);
    ghost var f4 := FlatMap(IdentifierCheck(w, a), a.citations);
    Regroup(start, f1 + f2 + f3, f4);
    var relationPairs, relatedClaimIds := CheckRelations(sink, a, claimIds, citationIds);
    ghost var f5 := FlatMap(RelationCheck(w, a), a.relations);
    Regroup(start, f1 + f2 + f3 + f4, f5);
    CheckRelated(sink, a, relatedClaimIds);
    ghost var f6 := FlatMap(UnrelatedCheck(w, a), a.claims);
    Regroup(start, f1 + f2 + f3 + f4 + f5, f6);
    CheckTrust(sink, a, claimIds, citationIds, relationPairs);
    Regroup(start, f1 + f2 + f3 + f4 + f5 + f6, FlatMap(TrustCheck(w, a), a.trust));
  }

  /** Everything that is due is added, and nothing else. */
  method CheckEvidenceGraph(sink: FindingSink, a: Artifacts)
    requires sink.Valid()
    modifies sink
    ensures sink.Valid() && sink.added == old(sink.added) + GraphFindings(sink.wording, a)
    ensures |sink.added| == |old(sink.added)| + X.Faults(a)
    ensures forall x :: x in sink.added <==> x in old(sink.added) || X.Due(sink.wording, a, x)
  {
    RunChecks(sink, a);
    X.ReportsEachFaultOnce(sink.wording, a);
    forall x ensures x in GraphFindings(sink.wording, a) <==> X.Due(sink.wording, a, x) {
      X.ReportsExactlyTheFaults(sink.wording, a, x);
    }
  }

  lemma FlatMapSnoc<T>(f: T -> seq<Finding>, s: seq<T>, i: nat)
    requires i < |s|
    ensures FlatMap(f, s[..i + 1]) == FlatMap(f, s[..i]) + f(s[i])
  {
    assert s[..i + 1][..i] == s[..i];
  }

  /**
   * The graph check alone: it passes exactly when the artifacts are sound (up to
   * pair keys) and have fewer faults than the cap, and below the cap it reports
   * exactly the faults.
   */
  method CheckArtifacts(wording: Wording, a: Artifacts) returns (passed: bool, report: seq<Finding>)
    ensures passed <==> SoundByKey(a) && X.Faults(a) < 1_000
    ensures PairsApart(a) ==> (passed <==> Sound(a) && X.Faults(a) < 1_000)
    ensures |report| <= 1_000 && Sorted(FindingLeq, report)
    ensures X.Faults(a) < 1_000 ==>
              |report| == X.Faults(a) && forall f :: f in report <==> exists x :: X.Due(wording, a, x) && f == Cleaned(x)
  {
    var sink := new FindingSink(wording);
    CheckEvidenceGraph(sink, a);
    assert sink.added == GraphFindings(wording, a);
    report := sink.Finish();
    passed := Count(report, Error) == 0;
    PassesExactly(wording, GraphFindings(wording, a));
    ReportIsBoundedAndSorted(wording, GraphFindings(wording, a));
    NoErrorsExactly(wording, a);
    X.ReportsEachFaultOnce(wording, a);
    if PairsApart(a) { ApartKeysAreExact(wording, a); }
    if X.Faults(a) < 1_000 { X.ReportIsDue(wording, a); }
  }
}

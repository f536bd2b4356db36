/**
 * validateGraphCurationOutput: proposals must stay inside the packet and must not
 * repeat an edge. Schema validation of the packet and the output is an oracle.
 */
module GraphCuration {
  import opened Prelude
  import opened JsText
  import opened Sorting
  import T = JsonTrees
  import JsonEquality

  const CONTRADICTS: JsString := Text("contradicts")

  datatype Edge = Edge(source: JsString, target: JsString, relationType: JsString)

  datatype Node = Node(landscapeNodeId: JsString, nodeVersionId: JsString)

  datatype Packet = Packet(nodes: seq<Node>, confirmedEdges: seq<Edge>)

  datatype Candidate = Candidate(edge: Edge, evidenceNodeIds: seq<JsString>)

  datatype Issue =
    | UnknownSource(index: nat)
    | UnknownTarget(index: nat)
    | SelfEdge(index: nat)
    | UnknownEvidence(index: nat)
    | AlreadyConfirmed(index: nat)
    | DuplicateCandidate(index: nat)
    | SchemaIssue(message: JsString)

  /** `output` is present exactly when `ok`. */
  datatype Verdict = Verdict(ok: bool, output: Option<seq<Candidate>>, issues: seq<Issue>)

  // --------------------------------------------------------------- edge keys

  function Endpoints(e: Edge): (r: seq<JsString>)
    ensures |r| == 2
  {
    if e.relationType == CONTRADICTS then Sort(Leq, [e.source, e.target]) else [e.source, e.target]
  }

  /** `JSON.stringify([...endpoints, relationType])` */
  function EdgeKey(e: Edge): JsString {
    T.Print(KeyData(e))
  }

  function KeyData(e: Edge): T.Tree {
    T.Array([T.String(Endpoints(e)[0]), T.String(Endpoints(e)[1]), T.String(e.relationType)])
  }

  /** The same edge; only `contradicts` has no direction. */
  predicate SameEdge(a: Edge, b: Edge) {
    && a.relationType == b.relationType
    && ((a.source == b.source && a.target == b.target)
        || (a.relationType == Text("contradicts") && a.source == b.target && a.target == b.source))
  }

  lemma SortedOne(y: JsString)
    ensures Sort(Leq, [y]) == [y]
  {
    assert [y][1..] == [];
    assert Insert(Leq, y, []) == [y];
  }

  lemma SortedPair(x: JsString, y: JsString)
    ensures Sort(Leq, [x, y]) == if Leq(x, y) then [x, y] else [y, x]
  {
    SortedOne(y);
    var s := [x, y];
    assert s[1..] == [y] && s[0] == x;
    assert Sort(Leq, s) == Insert(Leq, x, [y]);
    InsertedPair(x, y);
  }

  lemma InsertedPair(x: JsString, y: JsString)
    ensures Insert(Leq, x, [y]) == if Leq(x, y) then [x, y] else [y, x]
  {
    assert [y][1..] == [];
    assert Insert(Leq, x, []) == [x];
  }

  lemma SamePair(x: JsString, y: JsString, z: JsString, w: JsString)
    ensures Sort(Leq, [x, y]) == Sort(Leq, [z, w]) <==> (x == z && y == w) || (x == w && y == z)
  {
    SortedPair(x, y);
    SortedPair(z, w);
    LeqTotal(x, y);
    var p, q := Sort(Leq, [x, y]), Sort(Leq, [z, w]);
    assert p == q <==> p[0] == q[0] && p[1] == q[1];
    if x == w && y == z && Leq(x, y) && Leq(y, x) { LeqAntisymmetric(x, y); }
  }

  lemma EndpointsAgree(a: Edge, b: Edge)
    ensures Endpoints(a) == Endpoints(b) && a.relationType == b.relationType <==> SameEdge(a, b)
  {
    if a.relationType == b.relationType {
      if a.relationType == CONTRADICTS {
        SamePair(a.source, a.target, b.source, b.target);
      } else {
        assert Endpoints(a)[0] == a.source && Endpoints(a)[1] == a.target;
        assert Endpoints(b)[0] == b.source && Endpoints(b)[1] == b.target;
      }
    }
  }

  /** Two edges have one key exactly when they are the same edge. */
  lemma EdgeKeyIsExact(a: Edge, b: Edge)
    ensures EdgeKey(a) == EdgeKey(b) <==> SameEdge(a, b)
  {
    JsonEquality.EqualTextIffSameData(KeyData(a), KeyData(b));
    EndpointsAgree(a, b);
    var x, y := KeyData(a).items, KeyData(b).items;
    assert T.SameData(KeyData(a), KeyData(b)) <==>
        T.SameData(x[0], y[0]) && T.SameData(x[1], y[1]) && T.SameData(x[2], y[2]);
    assert Endpoints(a) == Endpoints(b) <==> Endpoints(a)[0] == Endpoints(b)[0] && Endpoints(a)[1] == Endpoints(b)[1];
  }

  // -------------------------------------------------------------- acceptance

  ghost predicate KnownVersion(packet: Packet, id: JsString) {
    exists i :: 0 <= i < |packet.nodes| && packet.nodes[i].nodeVersionId == id
  }

  ghost predicate KnownLandscape(packet: Packet, id: JsString) {
    exists i :: 0 <= i < |packet.nodes| && packet.nodes[i].landscapeNodeId == id
  }

  ghost predicate Confirmed(packet: Packet, e: Edge) {
    exists i :: 0 <= i < |packet.confirmedEdges| && SameEdge(packet.confirmedEdges[i], e)
  }

  /** Endpoints and evidence are in the packet, the endpoints differ, and the edge is new. */
  ghost predicate Admissible(packet: Packet, c: Candidate) {
    && KnownVersion(packet, c.edge.source) && KnownVersion(packet, c.edge.target) && c.edge.source != c.edge.target
    && (forall id :: id in c.evidenceNodeIds ==> KnownLandscape(packet, id))
    && !Confirmed(packet, c.edge)
  }

  ghost predicate Repeats(proposals: seq<Candidate>, i: nat)
    requires i < |proposals|
  {
    exists j :: 0 <= j < i && SameEdge(proposals[j].edge, proposals[i].edge)
  }

  /** Every proposal is admissible and no two are the same edge. */
  ghost predicate Acceptable(packet: Packet, proposals: seq<Candidate>) {
    AcceptableUpTo(packet, proposals, |proposals|)
  }

  ghost predicate AcceptableUpTo(packet: Packet, proposals: seq<Candidate>, n: nat)
    requires n <= |proposals|
  {
    forall i :: 0 <= i < n ==> Passes(packet, proposals, i)
  }

  ghost predicate Passes(packet: Packet, proposals: seq<Candidate>, i: nat)
    requires i < |proposals|
  {
    Admissible(packet, proposals[i]) && !Repeats(proposals, i)
  }

  function VersionIds(nodes: seq<Node>): set<JsString> {
    set i | 0 <= i < |nodes| :: nodes[i].nodeVersionId
  }

  function LandscapeIds(nodes: seq<Node>): set<JsString> {
    set i | 0 <= i < |nodes| :: nodes[i].landscapeNodeId
  }

  function EdgeKeys(edges: seq<Edge>): set<JsString> {
    set i | 0 <= i < |edges| :: EdgeKey(edges[i])
  }

  function CandidateKeys(proposals: seq<Candidate>): set<JsString> {
    set i | 0 <= i < |proposals| :: EdgeKey(proposals[i].edge)
  }

  function When(condition: bool, issue: Issue): seq<Issue> {
    if condition then [issue] else []
  }

  function IssueList(
    source: bool, target: bool, self: bool, evidence: bool, confirmed: bool, duplicate: bool, i: nat): seq<Issue>
  {
    When(source, UnknownSource(i)) + When(target, UnknownTarget(i)) + When(self, SelfEdge(i))
    + When(evidence, UnknownEvidence(i)) + When(confirmed, AlreadyConfirmed(i)) + When(duplicate, DuplicateCandidate(i))
  }

  predicate EvidenceOutside(c: Candidate, landscapeIds: set<JsString>) {
    exists id :: id in c.evidenceNodeIds && id !in landscapeIds
  }

  /** The issues of proposal i, in the order they are pushed. */
  function IssuesAt(packet: Packet, proposals: seq<Candidate>, i: nat): seq<Issue>
    requires i < |proposals|
  {
    var c := proposals[i];
    IssueList(
      c.edge.source !in VersionIds(packet.nodes), c.edge.target !in VersionIds(packet.nodes),
      c.edge.source == c.edge.target, EvidenceOutside(c, LandscapeIds(packet.nodes)),
      EdgeKey(c.edge) in EdgeKeys(packet.confirmedEdges), EdgeKey(c.edge) in CandidateKeys(proposals[..i]), i)
  }

  function Issues(packet: Packet, proposals: seq<Candidate>, n: nat): seq<Issue>
    requires n <= |proposals|
  {
    if n == 0 then [] else Issues(packet, proposals, n - 1) + IssuesAt(packet, proposals, n - 1)
  }

  lemma ConfirmedByKey(packet: Packet, e: Edge)
    ensures EdgeKey(e) in EdgeKeys(packet.confirmedEdges) <==> Confirmed(packet, e)
  {
    forall i | 0 <= i < |packet.confirmedEdges|
      ensures EdgeKey(packet.confirmedEdges[i]) == EdgeKey(e) <==> SameEdge(packet.confirmedEdges[i], e)
    {
      EdgeKeyIsExact(packet.confirmedEdges[i], e);
    }
  }

  lemma RepeatsByKey(proposals: seq<Candidate>, i: nat)
    requires i < |proposals|
    ensures EdgeKey(proposals[i].edge) in CandidateKeys(proposals[..i]) <==> Repeats(proposals, i)
  {
    var before := proposals[..i];
    forall j | 0 <= j < i
      ensures EdgeKey(before[j].edge) == EdgeKey(proposals[i].edge) <==> SameEdge(proposals[j].edge, proposals[i].edge)
    {
      EdgeKeyIsExact(proposals[j].edge, proposals[i].edge);
    }
  }

  lemma LandscapeIdsAre(packet: Packet)
    ensures forall id :: id in LandscapeIds(packet.nodes) <==> KnownLandscape(packet, id)
  {
    forall id ensures id in LandscapeIds(packet.nodes) <==> KnownLandscape(packet, id) {}
  }

  lemma NoIssueAt(packet: Packet, proposals: seq<Candidate>, i: nat)
    requires i < |proposals|
    ensures IssuesAt(packet, proposals, i) == [] <==> Passes(packet, proposals, i)
  {
    ConfirmedByKey(packet, proposals[i].edge);
    RepeatsByKey(proposals, i);
    LandscapeIdsAre(packet);
  }

  lemma UpToSnoc(packet: Packet, proposals: seq<Candidate>, n: nat)
    requires n < |proposals|
    ensures AcceptableUpTo(packet, proposals, n + 1)
       <==> AcceptableUpTo(packet, proposals, n) && Passes(packet, proposals, n)
  {
    if AcceptableUpTo(packet, proposals, n) && Passes(packet, proposals, n) {
      forall i | 0 <= i < n + 1 ensures Passes(packet, proposals, i) {}
    }
  }

  lemma {:induction false} NoIssues(packet: Packet, proposals: seq<Candidate>, n: nat)
    requires n <= |proposals|
    ensures Issues(packet, proposals, n) == [] <==> AcceptableUpTo(packet, proposals, n)
  {
    if n > 0 {
      NoIssues(packet, proposals, n - 1);
      NoIssueAt(packet, proposals, n - 1);
      UpToSnoc(packet, proposals, n - 1);
      assert Issues(packet, proposals, n) == [] <==>
          Issues(packet, proposals, n - 1) == [] && IssuesAt(packet, proposals, n - 1) == [];
    }
  }

  // ------------------------------------------------------ which issue for which fault

  ghost function ProposalOf(x: Issue): Option<nat> {
    match x
    case SchemaIssue(_) => None
    case UnknownSource(i) => Some(i)
    case UnknownTarget(i) => Some(i)
    case SelfEdge(i) => Some(i)
    case UnknownEvidence(i) => Some(i)
    case AlreadyConfirmed(i) => Some(i)
    case DuplicateCandidate(i) => Some(i)
  }

  /** Which of six conditions an issue of proposal i reports. */
  ghost predicate Stands(x: Issue, s: bool, t: bool, e: bool, v: bool, c: bool, d: bool, i: nat) {
    match x
    case UnknownSource(k) => k == i && s
    case UnknownTarget(k) => k == i && t
    case SelfEdge(k) => k == i && e
    case UnknownEvidence(k) => k == i && v
    case AlreadyConfirmed(k) => k == i && c
    case DuplicateCandidate(k) => k == i && d
    case SchemaIssue(_) => false
  }

  /** The fault of proposal i that an issue reports. */
  ghost predicate IsFaultAt(x: Issue, packet: Packet, proposals: seq<Candidate>, i: nat)
    requires i < |proposals|
  {
    var c := proposals[i];
    Stands(
      x, !KnownVersion(packet, c.edge.source), !KnownVersion(packet, c.edge.target), c.edge.source == c.edge.target,
      exists id :: id in c.evidenceNodeIds && !KnownLandscape(packet, id), Confirmed(packet, c.edge),
      Repeats(proposals, i), i)
  }

  ghost predicate IsFault(x: Issue, packet: Packet, proposals: seq<Candidate>) {
    ProposalOf(x).Some? && ProposalOf(x).value < |proposals| && IsFaultAt(x, packet, proposals, ProposalOf(x).value)
  }

  /** The place of an issue among those of its proposal. */
  ghost function Place(x: Issue): nat {
    match x
    case UnknownSource(_) => 0
    case UnknownTarget(_) => 1
    case SelfEdge(_) => 2
    case UnknownEvidence(_) => 3
    case AlreadyConfirmed(_) => 4
    case DuplicateCandidate(_) => 5
    case SchemaIssue(_) => 6
  }

  /** Issues of earlier proposals come first, and those of one proposal in their places; none comes twice. */
  ghost predicate InOrder(x: Issue, y: Issue) {
    && ProposalOf(x).Some? && ProposalOf(y).Some?
    && (ProposalOf(x).value < ProposalOf(y).value || (ProposalOf(x) == ProposalOf(y) && Place(x) < Place(y)))
  }

  /** Issues of proposal i in order, all with places before p. */
  ghost predicate OrderedUpTo(list: seq<Issue>, i: nat, p: nat) {
    && (forall j, k :: 0 <= j < k < |list| ==> InOrder(list[j], list[k]))
    && (forall k :: 0 <= k < |list| ==> ProposalOf(list[k]) == Some(i) && Place(list[k]) < p)
  }

  lemma Pushed(list: seq<Issue>, condition: bool, issue: Issue, i: nat, x: Issue)
    requires OrderedUpTo(list, i, Place(issue)) && ProposalOf(issue) == Some(i)
    ensures OrderedUpTo(list + When(condition, issue), i, Place(issue) + 1)
    ensures x in list + When(condition, issue) <==> x in list || (condition && x == issue)
  {
  }

  lemma FirstThree(s: bool, t: bool, e: bool, i: nat, x: Issue)
    ensures var list := When(s, UnknownSource(i)) + When(t, UnknownTarget(i)) + When(e, SelfEdge(i));
      && OrderedUpTo(list, i, 3)
      && (x in list <==> (s && x == UnknownSource(i)) || (t && x == UnknownTarget(i)) || (e && x == SelfEdge(i)))
  {
    Pushed([], s, UnknownSource(i), i, x);
    assert [] + When(s, UnknownSource(i)) == When(s, UnknownSource(i));
    Pushed(When(s, UnknownSource(i)), t, UnknownTarget(i), i, x);
    Pushed(When(s, UnknownSource(i)) + When(t, UnknownTarget(i)), e, SelfEdge(i), i, x);
  }

  lemma LastThree(list: seq<Issue>, v: bool, c: bool, d: bool, i: nat, x: Issue)
    requires OrderedUpTo(list, i, 3)
    ensures var all := list + When(v, UnknownEvidence(i)) + When(c, AlreadyConfirmed(i)) + When(d, DuplicateCandidate(i));
      && OrderedUpTo(all, i, 6)
      && (x in all <==>
            || x in list || (v && x == UnknownEvidence(i)) || (c && x == AlreadyConfirmed(i))
            || (d && x == DuplicateCandidate(i)))
  {
    Pushed(list, v, UnknownEvidence(i), i, x);
    Pushed(list + When(v, UnknownEvidence(i)), c, AlreadyConfirmed(i), i, x);
    Pushed(list + When(v, UnknownEvidence(i)) + When(c, AlreadyConfirmed(i)), d, DuplicateCandidate(i), i, x);
  }

  lemma ListIs(s: bool, t: bool, e: bool, v: bool, c: bool, d: bool, i: nat, x: Issue)
    ensures OrderedUpTo(IssueList(s, t, e, v, c, d, i), i, 6)
    ensures x in IssueList(s, t, e, v, c, d, i) <==> Stands(x, s, t, e, v, c, d, i)
  {
    FirstThree(s, t, e, i, x);
    LastThree(When(s, UnknownSource(i)) + When(t, UnknownTarget(i)) + When(e, SelfEdge(i)), v, c, d, i, x);
  }

  /** The conditions under which the pushes of a round are made. */
  lemma ConditionsAre(packet: Packet, proposals: seq<Candidate>, i: nat)
    requires i < |proposals|
    ensures var c := proposals[i];
      && (c.edge.source in VersionIds(packet.nodes) <==> KnownVersion(packet, c.edge.source))
      && (c.edge.target in VersionIds(packet.nodes) <==> KnownVersion(packet, c.edge.target))
      && (EvidenceOutside(c, LandscapeIds(packet.nodes))
          <==> exists id :: id in c.evidenceNodeIds && !KnownLandscape(packet, id))
      && (EdgeKey(c.edge) in EdgeKeys(packet.confirmedEdges) <==> Confirmed(packet, c.edge))
      && (EdgeKey(c.edge) in CandidateKeys(proposals[..i]) <==> Repeats(proposals, i))
  {
    ConfirmedByKey(packet, proposals[i].edge);
    RepeatsByKey(proposals, i);
    LandscapeIdsAre(packet);
  }

  ghost function FaultList(packet: Packet, proposals: seq<Candidate>, i: nat): seq<Issue>
    requires i < |proposals|
  {
    var c := proposals[i];
    IssueList(
      !KnownVersion(packet, c.edge.source), !KnownVersion(packet, c.edge.target), c.edge.source == c.edge.target,
      exists id :: id in c.evidenceNodeIds && !KnownLandscape(packet, id), Confirmed(packet, c.edge),
      Repeats(proposals, i), i)
  }

  lemma IssuesAtAreListed(packet: Packet, proposals: seq<Candidate>, i: nat)
    requires i < |proposals|
    ensures IssuesAt(packet, proposals, i) == FaultList(packet, proposals, i)
  {
    ConditionsAre(packet, proposals, i);
  }

  lemma InFaultList(packet: Packet, proposals: seq<Candidate>, i: nat, x: Issue)
    requires i < |proposals|
    ensures x in FaultList(packet, proposals, i) <==> IsFaultAt(x, packet, proposals, i)
    ensures x in FaultList(packet, proposals, i) ==> ProposalOf(x) == Some(i)
  {
    var c := proposals[i];
    ListIs(
      !KnownVersion(packet, c.edge.source), !KnownVersion(packet, c.edge.target), c.edge.source == c.edge.target,
      exists id :: id in c.evidenceNodeIds && !KnownLandscape(packet, id), Confirmed(packet, c.edge),
      Repeats(proposals, i), i, x);
  }

  lemma FaultListIsInOrder(packet: Packet, proposals: seq<Candidate>, i: nat)
    requires i < |proposals|
    ensures OrderedUpTo(FaultList(packet, proposals, i), i, 6)
  {
    var c := proposals[i];
    ListIs(
      !KnownVersion(packet, c.edge.source), !KnownVersion(packet, c.edge.target), c.edge.source == c.edge.target,
      exists id :: id in c.evidenceNodeIds && !KnownLandscape(packet, id), Confirmed(packet, c.edge),
      Repeats(proposals, i), i, SelfEdge(i));
  }

  ghost function Gathered(f: nat -> seq<Issue>, n: nat): seq<Issue> {
    if n == 0 then [] else Gathered(f, n - 1) + f(n - 1)
  }

  lemma {:induction false} InGathered(f: nat -> seq<Issue>, n: nat, x: Issue)
    ensures x in Gathered(f, n) <==> exists i: nat :: i < n && x in f(i)
  {
    if n > 0 { InGathered(f, n - 1, x); }
  }

  ghost function EachRound(packet: Packet, proposals: seq<Candidate>): nat -> seq<Issue> {
    (i: nat) => if i < |proposals| then IssuesAt(packet, proposals, i) else []
  }

  lemma EachRoundIs(packet: Packet, proposals: seq<Candidate>, i: nat)
    requires i < |proposals|
    ensures EachRound(packet, proposals)(i) == IssuesAt(packet, proposals, i)
  {
  }

  lemma {:induction false} IssuesAreGathered(packet: Packet, proposals: seq<Candidate>, n: nat)
    requires n <= |proposals|
    ensures Issues(packet, proposals, n) == Gathered(EachRound(packet, proposals), n)
  {
    if n > 0 {
      IssuesAreGathered(packet, proposals, n - 1);
      EachRoundIs(packet, proposals, n - 1);
    }
  }

  /** An issue that only the round of its proposal can list is listed exactly when that round lists it. */
  lemma InOwnRound(f: nat -> seq<Issue>, n: nat, x: Issue, fault: bool)
    requires forall i: nat :: i < n ==> (x in f(i) <==> ProposalOf(x) == Some(i) && fault)
    ensures x in Gathered(f, n) <==> ProposalOf(x).Some? && ProposalOf(x).value < n && fault
  {
    InGathered(f, n, x);
  }

  lemma RoundIs(packet: Packet, proposals: seq<Candidate>, i: nat, x: Issue)
    requires i < |proposals|
    ensures x in EachRound(packet, proposals)(i) <==> ProposalOf(x) == Some(i) && IsFault(x, packet, proposals)
  {
    IssuesAtAreListed(packet, proposals, i);
    InFaultList(packet, proposals, i, x);
  }

  /** Exactly the faults are reported. */
  lemma IssuesAreFaults(packet: Packet, proposals: seq<Candidate>, x: Issue)
    ensures x in Issues(packet, proposals, |proposals|) <==> IsFault(x, packet, proposals)
  {
    IssuesAreGathered(packet, proposals, |proposals|);
    forall i: nat | i < |proposals|
      ensures x in EachRound(packet, proposals)(i) <==> ProposalOf(x) == Some(i) && IsFault(x, packet, proposals)
    {
      RoundIs(packet, proposals, i, x);
    }
    InOwnRound(EachRound(packet, proposals), |proposals|, x, IsFault(x, packet, proposals));
  }

  ghost predicate OrderedBelow(issues: seq<Issue>, n: nat) {
    && (forall j, k :: 0 <= j < k < |issues| ==> InOrder(issues[j], issues[k]))
    && (forall k :: 0 <= k < |issues| ==> ProposalOf(issues[k]).Some? && ProposalOf(issues[k]).value < n)
  }

  lemma OrderedConcat(before: seq<Issue>, list: seq<Issue>, n: nat)
    requires OrderedBelow(before, n) && OrderedUpTo(list, n, 6)
    ensures OrderedBelow(before + list, n + 1)
  {
  }

  /** They are listed proposal by proposal, and none twice. */
  lemma {:induction false} IssuesAreInOrder(packet: Packet, proposals: seq<Candidate>, n: nat)
    requires n <= |proposals|
    ensures OrderedBelow(Issues(packet, proposals, n), n)
  {
    if n > 0 {
      IssuesAreInOrder(packet, proposals, n - 1);
      IssuesAtAreListed(packet, proposals, n - 1);
      FaultListIsInOrder(packet, proposals, n - 1);
      OrderedConcat(Issues(packet, proposals, n - 1), IssuesAt(packet, proposals, n - 1), n - 1);
    }
  }

  /** The issues of a list of proposals. */
  ghost predicate AreIssues(issues: seq<Issue>, packet: Packet, proposals: seq<Candidate>) {
    && (forall x :: x in issues <==> IsFault(x, packet, proposals))
    && (forall j, k :: 0 <= j < k < |issues| ==> InOrder(issues[j], issues[k]))
  }

  lemma AllIssues(packet: Packet, proposals: seq<Candidate>)
    ensures AreIssues(Issues(packet, proposals, |proposals|), packet, proposals)
  {
    IssuesAreInOrder(packet, proposals, |proposals|);
    forall x ensures x in Issues(packet, proposals, |proposals|) <==> IsFault(x, packet, proposals) {
      IssuesAreFaults(packet, proposals, x);
    }
  }

  // --------------------------------------------------------------- validator

  /** `parsed` is what the output schema makes of the value. */
  method ValidateGraphCurationOutput(parsed: Result<seq<Candidate>, seq<JsString>>, packet: Packet)
    returns (verdict: Verdict)
    ensures parsed.Err? ==> !verdict.ok && |verdict.issues| <= 20 && verdict.issues == SchemaIssues(parsed.error)
    ensures parsed.Ok? ==>
              && (verdict.ok <==> Acceptable(packet, parsed.value))
              && AreIssues(verdict.issues, packet, parsed.value)
              && verdict.output == (if verdict.ok then Some(parsed.value) else None)
  {
    if parsed.Err? {
      return Verdict(false, None, SchemaIssues(parsed.error));
    }
    var proposals := parsed.value;
    var versionIds, landscapeIds := VersionIds(packet.nodes), LandscapeIds(packet.nodes);
    var existing := EdgeKeys(packet.confirmedEdges);
    var candidates: set<JsString> := {};
    var issues: seq<Issue> := [];
    var index := 0;
    while index < |proposals|
      invariant index <= |proposals|
      invariant candidates == CandidateKeys(proposals[..index]) && issues == Issues(packet, proposals, index)
    {
      var more, key := Inspect(proposals, index, versionIds, landscapeIds, existing, candidates, packet);
      assert CandidateKeys(proposals[..index + 1]) == CandidateKeys(proposals[..index]) + {key} by {
        KeysSnoc(proposals, index);
      }
      issues := issues + more;
      candidates := candidates + {key};
      index := index + 1;
    }
    NoIssues(packet, proposals, |proposals|);
    AllIssues(packet, proposals);
    verdict := if |issues| > 0 then Verdict(false, None, issues) else Verdict(true, Some(proposals), []);
  }

  function SchemaIssues(messages: seq<JsString>): (r: seq<Issue>)
    ensures |r| == if |messages| < 20 then |messages| else 20
    ensures forall i :: 0 <= i < |r| ==> r[i] == SchemaIssue(messages[i])
  {
    var n := if |messages| < 20 then |messages| else 20;
    seq(n, i requires 0 <= i < n => SchemaIssue(messages[i]))
  }

  lemma KeysSnoc(proposals: seq<Candidate>, i: nat)
    requires i < |proposals|
    ensures CandidateKeys(proposals[..i + 1]) == CandidateKeys(proposals[..i]) + {EdgeKey(proposals[i].edge)}
  {
    var longer, shorter := proposals[..i + 1], proposals[..i];
    assert longer[i] == proposals[i];
    assert forall j :: 0 <= j < i ==> longer[j] == shorter[j];
  }

  /** One round of the loop. */
  method Inspect(
    proposals: seq<Candidate>, index: nat, versionIds: set<JsString>, landscapeIds: set<JsString>,
    existing: set<JsString>, candidates: set<JsString>, ghost packet: Packet)
    returns (issues: seq<Issue>, key: JsString)
    requires index < |proposals|
    requires versionIds == VersionIds(packet.nodes) && landscapeIds == LandscapeIds(packet.nodes)
    requires existing == EdgeKeys(packet.confirmedEdges) && candidates == CandidateKeys(proposals[..index])
    ensures issues == IssuesAt(packet, proposals, index) && key == EdgeKey(proposals[index].edge)
  {
    var candidate := proposals[index];
    key := EdgeKey(candidate.edge);
    issues := Collect(
      candidate.edge.source !in versionIds, candidate.edge.target !in versionIds,
      candidate.edge.source == candidate.edge.target, EvidenceOutside(candidate, landscapeIds),
      key in existing, key in candidates, index);
  }

  /** The pushes of one round. */
  method Collect(source: bool, target: bool, self: bool, evidence: bool, confirmed: bool, duplicate: bool, index: nat)
    returns (issues: seq<Issue>)
    ensures issues == IssueList(source, target, self, evidence, confirmed, duplicate, index)
  {
    issues := [];
    if source { issues := issues + [UnknownSource(index)]; }
    ghost var first := When(source, UnknownSource(index));
    assert issues == first;
    if target { issues := issues + [UnknownTarget(index)]; }
    ghost var second := first + When(target, UnknownTarget(index));
    assert issues == second;
    if self { issues := issues + [SelfEdge(index)]; }
    ghost var third := second + When(self, SelfEdge(index));
    assert issues == third;
    if evidence { issues := issues + [UnknownEvidence(index)]; }
    ghost var fourth := third + When(evidence, UnknownEvidence(index));
    assert issues == fourth;
    if confirmed { issues := issues + [AlreadyConfirmed(index)]; }
    ghost var fifth := fourth + When(confirmed, AlreadyConfirmed(index));
    assert issues == fifth;
    if duplicate { issues := issues + [DuplicateCandidate(index)]; }
    assert issues == fifth + When(duplicate, DuplicateCandidate(index));
  }
}

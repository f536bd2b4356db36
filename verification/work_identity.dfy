/**
 * findWorkIdentifierConflicts: records that share aliases, directly or through
 * a chain, form one cluster; a cluster with two values of one scheme conflicts.
 */
module WorkIdentity {
  import opened Prelude
  import opened JsText
  import opened Sorting
  import JsSplit
  import opened UnionFinds

  datatype Record = Record(citationId: JsString, aliases: seq<JsString>)

  datatype Scheme = Doi | Pmid | OpenAlex

  datatype Conflict = Conflict(citationIds: seq<JsString>, scheme: Scheme, values: seq<JsString>)

  /** `${scheme}:` */
  function Prefix(scheme: Scheme): JsString {
    match scheme
    case Doi => Text("doi:")
    case Pmid => Text("pmid:")
    case OpenAlex => Text("openalex:")
  }

  // ------------------------------------------------------ clusters of records

  /** Which record carries which alias. */
  type Uses = set<(nat, JsString)>

  function UsesOf(records: seq<Record>): Uses {
    set i: nat, a | 0 <= i < |records| && a in records[i].aliases :: (i, a)
  }

  ghost predicate Share(uses: Uses, i: nat, j: nat) {
    exists a :: (i, a) in uses && (j, a) in uses
  }

  /** Neighbours in the chain share an alias. */
  ghost predicate IsChain(uses: Uses, p: seq<nat>, i: nat, j: nat) {
    && p != [] && p[0] == i && p[|p| - 1] == j
    && forall k :: 0 <= k < |p| - 1 ==> Share(uses, p[k], p[k + 1])
  }

  ghost predicate Linked(uses: Uses, i: nat, j: nat) {
    exists p :: IsChain(uses, p, i, j)
  }

  lemma LinkedReflexive(uses: Uses, i: nat)
    ensures Linked(uses, i, i)
  {
    assert IsChain(uses, [i], i, i);
  }

  lemma LinkedByAlias(uses: Uses, i: nat, j: nat, a: JsString)
    requires (i, a) in uses && (j, a) in uses
    ensures Linked(uses, i, j)
  {
    assert Share(uses, i, j);
    assert IsChain(uses, [i, j], i, j);
  }

  lemma LinkedTransitive(uses: Uses, i: nat, j: nat, k: nat)
    requires Linked(uses, i, j) && Linked(uses, j, k)
    ensures Linked(uses, i, k)
  {
    var p :| IsChain(uses, p, i, j);
    var q :| IsChain(uses, q, j, k);
    var r := p + q[1..];
    forall n | 0 <= n < |r| - 1 ensures Share(uses, r[n], r[n + 1]) {
      if n < |p| - 1 {
        assert Share(uses, p[n], p[n + 1]);
      } else {
        var m := n - (|p| - 1);
        assert Share(uses, q[m], q[m + 1]);
        assert r[n] == q[m] && r[n + 1] == q[m + 1];
      }
    }
    assert IsChain(uses, r, i, k);
  }

  lemma LinkedSymmetric(uses: Uses, i: nat, j: nat)
    requires Linked(uses, i, j)
    ensures Linked(uses, j, i)
  {
    var p :| IsChain(uses, p, i, j);
    var r := seq(|p|, n requires 0 <= n < |p| => p[|p| - 1 - n]);
    forall n | 0 <= n < |r| - 1 ensures Share(uses, r[n], r[n + 1]) {
      assert Share(uses, p[|p| - 2 - n], p[|p| - 2 - n + 1]);
    }
    assert IsChain(uses, r, j, i);
  }

  lemma LinkedMonotone(uses: Uses, more: Uses, i: nat, j: nat)
    requires uses <= more && Linked(uses, i, j)
    ensures Linked(more, i, j)
  {
    var p :| IsChain(uses, p, i, j);
    forall n | 0 <= n < |p| - 1 ensures Share(more, p[n], p[n + 1]) {
      assert Share(uses, p[n], p[n + 1]);
    }
    assert IsChain(more, p, i, j);
  }

  // --------------------------------------------------- one occurrence at a time

  ghost predicate InRange(uses: Uses, n: nat) {
    forall u :: u in uses ==> u.0 < n
  }

  /** Same representative exactly when linked through the aliases seen so far. */
  ghost predicate Agrees(root: seq<nat>, uses: Uses) {
    InRange(uses, |root|) &&
    forall i, j :: 0 <= i < |root| && 0 <= j < |root| ==> (root[i] == root[j] <==> Linked(uses, i, j))
  }

  lemma AgreesAtStart(n: nat)
    ensures Agrees(seq(n, i => i), {})
  {
    var root := seq(n, i => i);
    forall i: nat, j: nat | i < n && j < n ensures root[i] == root[j] <==> Linked({}, i, j) {
      LinkedReflexive({}, i);
      if Linked({}, i, j) {
        var p :| IsChain({}, p, i, j);
        assert |p| > 1 ==> Share({}, p[0], p[1]);
      }
    }
  }

  /** A chain stays inside one class when every shared alias does. */
  lemma {:induction false} ChainKeepsRoot(root: seq<nat>, uses: Uses, p: seq<nat>, i: nat, j: nat)
    requires IsChain(uses, p, i, j) && InRange(uses, |root|) && i < |root|
    requires forall k, m, a :: (k, a) in uses && (m, a) in uses ==> root[k] == root[m]
    ensures j < |root| && root[i] == root[j]
    decreases |p|
  {
    if |p| > 1 {
      assert Share(uses, p[0], p[1]);
      var rest := p[1..];
      forall k | 0 <= k < |rest| - 1 ensures Share(uses, rest[k], rest[k + 1]) {
        assert Share(uses, p[k + 1], p[k + 1 + 1]);
      }
      ChainKeepsRoot(root, uses, rest, p[1], j);
    }
  }

  /** An alias seen for the first time links nothing. */
  lemma FirstUse(root: seq<nat>, uses: Uses, index: nat, alias: JsString)
    requires Agrees(root, uses) && index < |root| && forall u :: u in uses ==> u.1 != alias
    ensures Agrees(root, uses + {(index, alias)})
  {
    var more := uses + {(index, alias)};
    AgreementSpreads(root, uses);
    forall i: nat, j: nat | i < |root| && j < |root| ensures root[i] == root[j] <==> Linked(more, i, j) {
      if root[i] == root[j] { LinkedMonotone(uses, more, i, j); }
      if Linked(more, i, j) {
        var p :| IsChain(more, p, i, j);
        ChainKeepsRoot(root, more, p, i, j);
      }
    }
  }

  lemma AgreementSpreads(root: seq<nat>, uses: Uses)
    requires Agrees(root, uses)
    ensures forall k, m, a :: (k, a) in uses && (m, a) in uses ==> root[k] == root[m]
  {
    forall k, m, a | (k, a) in uses && (m, a) in uses ensures root[k] == root[m] {
      LinkedByAlias(uses, k, m, a);
    }
  }

  /** Joining the two classes is what one more use of a known alias does. */
  lemma LaterUse(root: seq<nat>, uses: Uses, first: nat, index: nat, alias: JsString)
    requires Agrees(root, uses) && index < |root| && (first, alias) in uses
    ensures Agrees(Merged(root, root[first], root[index]), uses + {(index, alias)})
  {
    var more := uses + {(index, alias)};
    var joined := Merged(root, root[first], root[index]);
    AgreementSpreads(root, uses);
    forall i: nat, j: nat | i < |root| && j < |root| ensures joined[i] == joined[j] <==> Linked(more, i, j) {
      if joined[i] == joined[j] { JoinedLinks(root, uses, first, index, alias, i, j); }
      if Linked(more, i, j) {
        var p :| IsChain(more, p, i, j);
        ChainKeepsRoot(joined, more, p, i, j);
      }
    }
  }

  lemma JoinedLinks(root: seq<nat>, uses: Uses, first: nat, index: nat, alias: JsString, i: nat, j: nat)
    requires Agrees(root, uses) && index < |root| && (first, alias) in uses && i < |root| && j < |root|
    requires root[i] == root[j] || (root[i] in {root[first], root[index]} && root[j] in {root[first], root[index]})
    ensures Linked(uses + {(index, alias)}, i, j)
  {
    var more := uses + {(index, alias)};
    LinkedByAlias(more, first, index, alias);
    LinkedSymmetric(more, first, index);
    if root[i] == root[j] {
      LinkedMonotone(uses, more, i, j);
    } else if root[i] == root[first] {
      LinkedMonotone(uses, more, i, first);
      LinkedMonotone(uses, more, index, j);
      LinkedTransitive(more, i, first, index);
      LinkedTransitive(more, i, index, j);
    } else {
      LinkedMonotone(uses, more, i, index);
      LinkedMonotone(uses, more, first, j);
      LinkedTransitive(more, i, index, first);
      LinkedTransitive(more, i, first, j);
    }
  }

  // ------------------------------------------------------------- the report

  predicate StartsWith(s: JsString, prefix: JsString) {
    |prefix| <= |s| && s[..|prefix|] == prefix
  }

  /** A JavaScript Set keeps first-insertion order. */
  function Add(values: seq<JsString>, value: JsString): seq<JsString> {
    if value in values then values else values + [value]
  }

  function AddValue(values: seq<JsString>, alias: JsString, scheme: Scheme): seq<JsString> {
    if StartsWith(alias, Prefix(scheme)) then Add(values, alias[|Prefix(scheme)|..]) else values
  }

  function AddValues(values: seq<JsString>, aliases: seq<JsString>, scheme: Scheme): seq<JsString>
    decreases |aliases|
  {
    if aliases == [] then values else AddValues(AddValue(values, aliases[0], scheme), aliases[1..], scheme)
  }

  predicate Indexes(records: seq<Record>, group: seq<nat>) {
    forall k :: 0 <= k < |group| ==> group[k] < |records|
  }

  function ValuesOf(values: seq<JsString>, records: seq<Record>, group: seq<nat>, scheme: Scheme): seq<JsString>
    requires Indexes(records, group)
    decreases |group|
  {
    if group == [] then values
    else ValuesOf(AddValues(values, records[group[0]].aliases, scheme), records, group[1..], scheme)
  }

  function Ids(records: seq<Record>, group: seq<nat>): (r: seq<JsString>)
    requires Indexes(records, group)
    ensures |r| == |group| && forall k :: 0 <= k < |group| ==> r[k] == records[group[k]].citationId
  {
    seq(|group|, k requires 0 <= k < |group| => records[group[k]].citationId)
  }

  function SchemeConflicts(records: seq<Record>, group: seq<nat>, scheme: Scheme): seq<Conflict>
    requires Indexes(records, group)
  {
    var values := ValuesOf([], records, group, scheme);
    if |values| < 2 then [] else [Conflict(Sort(Leq, Ids(records, group)), scheme, Sort(Leq, values))]
  }

  function ClusterConflicts(records: seq<Record>, group: seq<nat>): seq<Conflict>
    requires Indexes(records, group)
  {
    if |group| < 2 then [] else
      SchemeConflicts(records, group, Doi)
      + SchemeConflicts(records, group, Pmid)
      + SchemeConflicts(records, group, OpenAlex)
  }

  /** The records linked to i, in input order. */
  ghost function Cluster(uses: Uses, i: nat, n: nat): (r: seq<nat>)
    ensures forall j: nat :: j in r <==> j < n && Linked(uses, i, j)
  {
    if n == 0 then [] else Cluster(uses, i, n - 1) + if Linked(uses, i, n - 1) then [n - 1] else []
  }

  ghost function ClusterOf(records: seq<Record>, i: nat): (r: seq<nat>)
    ensures Indexes(records, r)
  {
    var r := Cluster(UsesOf(records), i, |records|);
    assert forall k :: 0 <= k < |r| ==> r[k] in r;
    r
  }

  /** The first record of its cluster. */
  ghost predicate IsLeader(uses: Uses, i: nat) {
    forall j: nat :: j < i ==> !Linked(uses, i, j)
  }

  ghost function Leaders(uses: Uses, n: nat): (r: seq<nat>)
    ensures forall i: nat :: i in r <==> i < n && IsLeader(uses, i)
  {
    if n == 0 then [] else Leaders(uses, n - 1) + if IsLeader(uses, n - 1) then [n - 1] else []
  }

  ghost function ReportOf(records: seq<Record>, leaders: seq<nat>): seq<Conflict> {
    if leaders == [] then []
    else
      ReportOf(records, leaders[..|leaders| - 1]) + ClusterConflicts(records, ClusterOf(records, leaders[|leaders| - 1]))
  }

  /** Every conflicting cluster, cluster by cluster, before the final ordering. */
  ghost function Report(records: seq<Record>): seq<Conflict> {
    ReportOf(records, Leaders(UsesOf(records), |records|))
  }

  // ---------------------------------------------------------- final ordering

  const BAR: CodeUnit := 124

  /** `${scheme}:${citationIds.join("|")}` */
  function KeyOf(c: Conflict): JsString {
    Prefix(c.scheme) + if c.citationIds == [] then [] else JsSplit.Join(BAR, c.citationIds)
  }

  /** `localeCompare(...) <= 0` on the keys, where the collation is that of the process. */
  type Collation = (JsString, JsString) -> bool

  function ByKey(collation: Collation): (Conflict, Conflict) -> bool {
    (l, r) => collation(KeyOf(l), KeyOf(r))
  }

  ghost function SortedReport(records: seq<Record>, collation: Collation): seq<Conflict> {
    Sort(ByKey(collation), Report(records))
  }
}

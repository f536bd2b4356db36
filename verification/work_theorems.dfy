/** The conflict report is sound, complete, free of repeats and independent of record order. */
module WorkTheorems {
  import opened Prelude
  import opened JsText
  import opened Sorting
  import opened WorkIdentity
  import JsSplit

  // ---------------------------------------------- what a conflict should say

  /** `doi:`, `pmid:` or `openalex:`, spelled out, and then the value. */
  function AliasOf(scheme: Scheme, value: JsString): JsString {
    match scheme
    case Doi => [100, 111, 105, 58] + value
    case Pmid => [112, 109, 105, 100, 58] + value
    case OpenAlex => [111, 112, 101, 110, 97, 108, 101, 120, 58] + value
  }

  lemma AliasIsPrefixed(scheme: Scheme, value: JsString)
    ensures AliasOf(scheme, value) == Prefix(scheme) + value
  {
    assert Prefix(Doi) == [100, 111, 105, 58];
    assert Prefix(Pmid) == [112, 109, 105, 100, 58];
    assert Prefix(OpenAlex) == [111, 112, 101, 110, 97, 108, 101, 120, 58];
  }

  /** Some record linked to i asserts this value of the scheme. */
  ghost predicate Asserted(records: seq<Record>, i: nat, scheme: Scheme, value: JsString) {
    exists j: nat :: j < |records| && Linked(UsesOf(records), i, j) && AliasOf(scheme, value) in records[j].aliases
  }

  ghost function Carrying(records: seq<Record>, i: nat, id: JsString): set<nat> {
    set j: nat | j < |records| && Linked(UsesOf(records), i, j) && records[j].citationId == id
  }

  /** Exactly the citation ids of the records linked to i, sorted. */
  ghost predicate ListsIds(records: seq<Record>, i: nat, ids: seq<JsString>) {
    Sorted(Leq, ids) && forall id :: multiset(ids)[id] == |Carrying(records, i, id)|
  }

  /** Exactly the values of the scheme asserted by records linked to i, sorted, each once. */
  ghost predicate ListsValues(records: seq<Record>, i: nat, scheme: Scheme, values: seq<JsString>) {
    StrictlySorted(values) && forall v :: v in values <==> Asserted(records, i, scheme, v)
  }

  ghost predicate HasCompany(records: seq<Record>, i: nat) {
    exists j: nat :: j < |records| && j != i && Linked(UsesOf(records), i, j)
  }

  /** c reports the cluster of record i: two records, two values, and exactly their ids and values. */
  ghost predicate IsConflictOf(records: seq<Record>, i: nat, c: Conflict) {
    && i < |records| && HasCompany(records, i)
    && ListsIds(records, i, c.citationIds)
    && ListsValues(records, i, c.scheme, c.values) && |c.values| >= 2
  }

  // ------------------------------------------------------- values and ids

  lemma AddedValue(values: seq<JsString>, alias: JsString, scheme: Scheme, v: JsString)
    ensures v in AddValue(values, alias, scheme) <==> v in values || alias == Prefix(scheme) + v
    ensures Distinct(values) ==> Distinct(AddValue(values, alias, scheme))
  {
    var p := Prefix(scheme);
    assert (p + v)[..|p|] == p && (p + v)[|p|..] == v;
    if StartsWith(alias, p) { assert alias == p + alias[|p|..]; }
  }

  lemma {:induction false} AddedValues(values: seq<JsString>, aliases: seq<JsString>, scheme: Scheme, v: JsString)
    ensures v in AddValues(values, aliases, scheme) <==> v in values || Prefix(scheme) + v in aliases
    ensures Distinct(values) ==> Distinct(AddValues(values, aliases, scheme))
    decreases |aliases|
  {
    if aliases != [] {
      assert aliases == [aliases[0]] + aliases[1..];
      AddedValue(values, aliases[0], scheme, v);
      AddedValues(AddValue(values, aliases[0], scheme), aliases[1..], scheme, v);
    }
  }

  ghost predicate InGroup(records: seq<Record>, group: seq<nat>, scheme: Scheme, v: JsString)
    requires Indexes(records, group)
  {
    exists k :: 0 <= k < |group| && Prefix(scheme) + v in records[group[k]].aliases
  }

  lemma {:induction false} GroupValues(
    values: seq<JsString>, records: seq<Record>, group: seq<nat>, scheme: Scheme, v: JsString)
    requires Indexes(records, group)
    ensures v in ValuesOf(values, records, group, scheme) <==> v in values || InGroup(records, group, scheme, v)
    ensures Distinct(values) ==> Distinct(ValuesOf(values, records, group, scheme))
    decreases |group|
  {
    if group != [] {
      var rest := group[1..];
      AddedValues(values, records[group[0]].aliases, scheme, v);
      GroupValues(AddValues(values, records[group[0]].aliases, scheme), records, rest, scheme, v);
      if InGroup(records, rest, scheme, v) {
        var k :| 0 <= k < |rest| && Prefix(scheme) + v in records[rest[k]].aliases;
        assert group[k + 1] == rest[k];
      }
      if InGroup(records, group, scheme, v) {
        var k :| 0 <= k < |group| && Prefix(scheme) + v in records[group[k]].aliases;
        if k > 0 { assert rest[k - 1] == group[k]; }
      }
    }
  }

  ghost function Holders(records: seq<Record>, group: seq<nat>, id: JsString): set<nat>
    requires Indexes(records, group)
  {
    set k | k in group && k < |records| && records[k].citationId == id
  }

  lemma HoldersSnoc(records: seq<Record>, group: seq<nat>, last: nat, id: JsString)
    requires Indexes(records, group) && last < |records| && last !in group
    ensures Indexes(records, group + [last])
    ensures |Holders(records, group + [last], id)|
         == |Holders(records, group, id)| + if records[last].citationId == id then 1 else 0
  {
    var before := Holders(records, group, id);
    assert last !in before;
    assert Holders(records, group + [last], id) == if records[last].citationId == id then before + {last} else before;
  }

  lemma {:induction false} CountIds(records: seq<Record>, group: seq<nat>, id: JsString)
    requires Indexes(records, group) && Distinct(group)
    ensures multiset(Ids(records, group))[id] == |Holders(records, group, id)|
  {
    if group == [] {
      assert Holders(records, group, id) == {};
    } else {
      var last, rest := group[|group| - 1], group[..|group| - 1];
      CountIds(records, rest, id);
      assert last !in rest;
      HoldersSnoc(records, rest, last, id);
      assert group == rest + [last];
      assert Ids(records, group) == Ids(records, rest) + [records[last].citationId];
    }
  }

  lemma {:induction false} ClusterAscends(uses: Uses, i: nat, n: nat)
    ensures forall a, b :: 0 <= a < b < |Cluster(uses, i, n)| ==> Cluster(uses, i, n)[a] < Cluster(uses, i, n)[b]
  {
    if n > 0 {
      ClusterAscends(uses, i, n - 1);
      var before := Cluster(uses, i, n - 1);
      assert forall a :: 0 <= a < |before| ==> before[a] in before;
    }
  }

  lemma ClusterSize(records: seq<Record>, i: nat)
    requires i < |records|
    ensures |ClusterOf(records, i)| >= 2 <==> HasCompany(records, i)
  {
    var group := ClusterOf(records, i);
    ClusterAscends(UsesOf(records), i, |records|);
    LinkedReflexive(UsesOf(records), i);
    assert i in group;
    if |group| >= 2 {
      assert group[0] in group && group[1] in group;
      var j := if group[0] == i then group[1] else group[0];
      assert j < |records| && j != i && Linked(UsesOf(records), i, j);
    }
    if HasCompany(records, i) {
      var j: nat :| j < |records| && j != i && Linked(UsesOf(records), i, j);
      assert j in group;
    }
  }

  // ------------------------------------------------------ sound and complete

  /** The values a cluster would be reported with are exactly those asserted in it. */
  lemma ReportedValues(records: seq<Record>, i: nat, scheme: Scheme)
    requires i < |records|
    ensures ListsValues(records, i, scheme, Sort(Leq, ValuesOf([], records, ClusterOf(records, i), scheme)))
  {
    var values := ValuesOf([], records, ClusterOf(records, i), scheme);
    forall v ensures v in Sort(Leq, values) <==> Asserted(records, i, scheme, v) {
      ClusterValue(records, i, scheme, v);
      SortKeeps(values, v);
    }
    GroupValues([], records, ClusterOf(records, i), scheme, []);
    SortedKeys(values);
  }

  /** The ids it would be reported with are those of its records, sorted. */
  lemma ReportedIds(records: seq<Record>, i: nat)
    requires i < |records|
    ensures ListsIds(records, i, Sort(Leq, Ids(records, ClusterOf(records, i))))
  {
    LeqIsOrder();
    SortSorts(Leq, Ids(records, ClusterOf(records, i)));
    forall id ensures multiset(Sort(Leq, Ids(records, ClusterOf(records, i))))[id] == |Carrying(records, i, id)| {
      ClusterIds(records, i, id);
    }
  }

  lemma IdsUnique(records: seq<Record>, i: nat, a: seq<JsString>, b: seq<JsString>)
    requires ListsIds(records, i, a) && ListsIds(records, i, b)
    ensures a == b
  {
    LeqIsOrder();
    assert forall id :: multiset(a)[id] == multiset(b)[id];
    assert multiset(a) == multiset(b);
    SortedListingUnique(Leq, a, b);
  }

  lemma ValuesUnique(records: seq<Record>, i: nat, scheme: Scheme, a: seq<JsString>, b: seq<JsString>)
    requires ListsValues(records, i, scheme, a) && ListsValues(records, i, scheme, b)
    ensures a == b
  {
    SortedKeysUnique(a, b);
  }

  lemma SchemeConflictIs(records: seq<Record>, i: nat, scheme: Scheme, c: Conflict)
    requires i < |records| && |ClusterOf(records, i)| >= 2
    ensures c in SchemeConflicts(records, ClusterOf(records, i), scheme)
       <==> c.scheme == scheme && IsConflictOf(records, i, c)
  {
    var ids := Sort(Leq, Ids(records, ClusterOf(records, i)));
    var values := Sort(Leq, ValuesOf([], records, ClusterOf(records, i), scheme));
    ClusterSize(records, i);
    ReportedValues(records, i, scheme);
    ReportedIds(records, i);
    if IsConflictOf(records, i, c) && c.scheme == scheme {
      ValuesUnique(records, i, scheme, c.values, values);
      IdsUnique(records, i, c.citationIds, ids);
    }
  }

  lemma SortKeeps(values: seq<JsString>, v: JsString)
    ensures v in Sort(Leq, values) <==> v in values
  {
    assert v in Sort(Leq, values) <==> v in multiset(Sort(Leq, values));
    assert v in values <==> v in multiset(values);
  }

  lemma ClusterValue(records: seq<Record>, i: nat, scheme: Scheme, v: JsString)
    requires i < |records|
    ensures v in ValuesOf([], records, ClusterOf(records, i), scheme) <==> Asserted(records, i, scheme, v)
  {
    var group := ClusterOf(records, i);
    AliasIsPrefixed(scheme, v);
    GroupValues([], records, group, scheme, v);
    if InGroup(records, group, scheme, v) {
      var k :| 0 <= k < |group| && Prefix(scheme) + v in records[group[k]].aliases;
      assert group[k] in group;
    }
    if Asserted(records, i, scheme, v) {
      var j: nat :| j < |records| && Linked(UsesOf(records), i, j) && AliasOf(scheme, v) in records[j].aliases;
      assert j in group;
    }
  }

  lemma ClusterIds(records: seq<Record>, i: nat, id: JsString)
    requires i < |records|
    ensures multiset(Sort(Leq, Ids(records, ClusterOf(records, i))))[id] == |Carrying(records, i, id)|
  {
    var group := ClusterOf(records, i);
    ClusterAscends(UsesOf(records), i, |records|);
    CountIds(records, group, id);
    assert Holders(records, group, id) == Carrying(records, i, id);
  }

  /** A cluster is reported for a scheme exactly when it has two records and two values of it. */
  lemma ClusterConflictIs(records: seq<Record>, i: nat, c: Conflict)
    requires i < |records|
    ensures c in ClusterConflicts(records, ClusterOf(records, i)) <==> IsConflictOf(records, i, c)
  {
    ClusterSize(records, i);
    if |ClusterOf(records, i)| >= 2 {
      SchemeConflictIs(records, i, Doi, c);
      SchemeConflictIs(records, i, Pmid, c);
      SchemeConflictIs(records, i, OpenAlex, c);
    }
  }

  lemma SchemeShape(records: seq<Record>, group: seq<nat>, scheme: Scheme)
    requires Indexes(records, group)
    ensures var s := SchemeConflicts(records, group, scheme);
            |s| <= 1 && forall d :: d in s ==> d.scheme == scheme
  {
  }

  lemma ClusterCount(records: seq<Record>, group: seq<nat>, c: Conflict)
    requires Indexes(records, group)
    ensures multiset(ClusterConflicts(records, group))[c] <= 1
  {
    SchemeShape(records, group, Doi);
    SchemeShape(records, group, Pmid);
    SchemeShape(records, group, OpenAlex);
    if |group| >= 2 {
      ThreeSchemes(SchemeConflicts(records, group, Doi), SchemeConflicts(records, group, Pmid),
                   SchemeConflicts(records, group, OpenAlex), c);
    }
  }

  /** At most once: the scheme says which of the three it is. */
  lemma ClusterReportsOnce(records: seq<Record>, i: nat, c: Conflict)
    requires i < |records|
    ensures multiset(ClusterConflicts(records, ClusterOf(records, i)))[c] == if IsConflictOf(records, i, c) then 1 else 0
  {
    var found := ClusterConflicts(records, ClusterOf(records, i));
    ClusterConflictIs(records, i, c);
    assert c in multiset(found) <==> c in found;
    ClusterCount(records, ClusterOf(records, i), c);
  }

  lemma ThreeSchemes(doi: seq<Conflict>, pmid: seq<Conflict>, alex: seq<Conflict>, c: Conflict)
    requires |doi| <= 1 && forall d :: d in doi ==> d.scheme == Doi
    requires |pmid| <= 1 && forall d :: d in pmid ==> d.scheme == Pmid
    requires |alex| <= 1 && forall d :: d in alex ==> d.scheme == OpenAlex
    ensures multiset(doi + pmid + alex)[c] <= 1
  {
    assert multiset(doi + pmid + alex) == multiset(doi) + multiset(pmid) + multiset(alex);
    SchemeOnce(doi, Doi, c);
    SchemeOnce(pmid, Pmid, c);
    SchemeOnce(alex, OpenAlex, c);
  }

  lemma SchemeOnce(s: seq<Conflict>, scheme: Scheme, c: Conflict)
    requires |s| <= 1 && forall d :: d in s ==> d.scheme == scheme
    ensures multiset(s)[c] <= if c.scheme == scheme then 1 else 0
  {
    if |s| == 1 { assert s == [s[0]] && s[0] in s; }
  }

  // ------------------------------------------------- the report as a whole

  ghost function Reporting(records: seq<Record>, leaders: seq<nat>, c: Conflict): set<nat> {
    set i | i in leaders && IsConflictOf(records, i, c)
  }

  lemma {:induction false} LeadersAscend(uses: Uses, n: nat)
    ensures Distinct(Leaders(uses, n))
  {
    if n > 0 {
      LeadersAscend(uses, n - 1);
      var before := Leaders(uses, n - 1);
      assert forall a :: 0 <= a < |before| ==> before[a] in before;
    }
  }

  lemma ReportingSnoc(records: seq<Record>, leaders: seq<nat>, last: nat, c: Conflict)
    requires last !in leaders
    ensures |Reporting(records, leaders + [last], c)|
         == |Reporting(records, leaders, c)| + if IsConflictOf(records, last, c) then 1 else 0
  {
    var before := Reporting(records, leaders, c);
    assert last !in before;
    assert Reporting(records, leaders + [last], c) == if IsConflictOf(records, last, c) then before + {last} else before;
  }

  lemma ReportSnoc(records: seq<Record>, leaders: seq<nat>, last: nat, c: Conflict)
    requires last < |records|
    ensures multiset(ReportOf(records, leaders + [last]))[c]
         == multiset(ReportOf(records, leaders))[c] + if IsConflictOf(records, last, c) then 1 else 0
  {
    var longer := leaders + [last];
    assert longer[..|longer| - 1] == leaders && longer[|longer| - 1] == last;
    ClusterReportsOnce(records, last, c);
  }

  lemma {:induction false} ReportCounts(records: seq<Record>, leaders: seq<nat>, c: Conflict)
    requires Distinct(leaders) && Indexes(records, leaders)
    ensures multiset(ReportOf(records, leaders))[c] == |Reporting(records, leaders, c)|
  {
    if leaders == [] {
      assert Reporting(records, leaders, c) == {};
    } else {
      var last, rest := leaders[|leaders| - 1], leaders[..|leaders| - 1];
      assert leaders == rest + [last];
      ReportCounts(records, rest, c);
      ReportSnoc(records, rest, last, c);
      ReportingSnoc(records, rest, last, c);
    }
  }

  /** The first records of the clusters that c reports. */
  ghost function Reporters(records: seq<Record>, c: Conflict): set<nat> {
    set i: nat | i < |records| && IsLeader(UsesOf(records), i) && IsConflictOf(records, i, c)
  }

  /** Each conflicting cluster is reported once per scheme: one entry for each of its leaders. */
  lemma ReportCountsClusters(records: seq<Record>, c: Conflict)
    ensures multiset(Report(records))[c] == |Reporters(records, c)|
  {
    var leaders := Leaders(UsesOf(records), |records|);
    LeadersAscend(UsesOf(records), |records|);
    assert forall k :: 0 <= k < |leaders| ==> leaders[k] in leaders;
    ReportCounts(records, leaders, c);
    assert Reporting(records, leaders, c) == Reporters(records, c);
  }

  ghost function LeaderOf(uses: Uses, i: nat): (l: nat)
    ensures l <= i && IsLeader(uses, l) && Linked(uses, i, l)
  {
    LinkedReflexive(uses, i);
    if IsLeader(uses, i) then i else
      var j: nat :| j < i && Linked(uses, i, j);
      LinkedTransitive(uses, i, j, LeaderOf(uses, j));
      LeaderOf(uses, j)
  }

  lemma LinkedConflict(records: seq<Record>, i: nat, k: nat, c: Conflict)
    requires IsConflictOf(records, i, c) && k < |records| && Linked(UsesOf(records), i, k)
    ensures IsConflictOf(records, k, c)
  {
    var uses := UsesOf(records);
    LinkedSymmetric(uses, i, k);
    assert i != k ==> HasCompany(records, k);
    forall j: nat ensures Linked(uses, i, j) <==> Linked(uses, k, j) {
      if Linked(uses, i, j) { LinkedTransitive(uses, k, i, j); }
      if Linked(uses, k, j) { LinkedTransitive(uses, i, k, j); }
    }
    forall id ensures Carrying(records, i, id) == Carrying(records, k, id) {}
    forall v ensures Asserted(records, i, c.scheme, v) <==> Asserted(records, k, c.scheme, v) {}
  }

  /** A conflict is in the report exactly when it is the conflict of some cluster. */
  lemma ReportIsExact(records: seq<Record>, c: Conflict)
    ensures c in Report(records) <==> exists i: nat :: IsConflictOf(records, i, c)
  {
    ReportCountsClusters(records, c);
    assert c in Report(records) <==> c in multiset(Report(records));
    if c in Report(records) {
      assert Reporters(records, c) != {};
      var i :| i in Reporters(records, c);
    }
    if exists i: nat :: IsConflictOf(records, i, c) {
      var i: nat :| IsConflictOf(records, i, c);
      var l := LeaderOf(UsesOf(records), i);
      LinkedConflict(records, i, l, c);
      assert l in Reporters(records, c);
    }
  }

  // ------------------------------------------------------- order of records

  /** b is a with its records moved: record k of a stands at to[k] of b. */
  ghost predicate Moved(a: seq<Record>, b: seq<Record>, to: seq<nat>, from: seq<nat>) {
    && |a| == |b| == |to| == |from|
    && (forall k :: 0 <= k < |a| ==> to[k] < |b| && from[to[k]] == k && b[to[k]] == a[k])
    && (forall k :: 0 <= k < |b| ==> from[k] < |a| && to[from[k]] == k)
  }

  lemma MovedBack(a: seq<Record>, b: seq<Record>, to: seq<nat>, from: seq<nat>)
    requires Moved(a, b, to, from)
    ensures Moved(b, a, from, to)
  {
  }

  lemma {:induction false} ChainInRange(records: seq<Record>, p: seq<nat>, i: nat, j: nat)
    requires IsChain(UsesOf(records), p, i, j) && i < |records|
    ensures forall k :: 0 <= k < |p| ==> p[k] < |records|
  {
    forall k | 0 <= k < |p| ensures p[k] < |records| {
      if k > 0 { assert Share(UsesOf(records), p[k - 1], p[k - 1 + 1]); }
    }
  }

  lemma LinkedMoves(a: seq<Record>, b: seq<Record>, to: seq<nat>, from: seq<nat>, i: nat, j: nat)
    requires Moved(a, b, to, from) && i < |a| && Linked(UsesOf(a), i, j)
    ensures j < |a| && Linked(UsesOf(b), to[i], to[j])
  {
    var p :| IsChain(UsesOf(a), p, i, j);
    ChainInRange(a, p, i, j);
    var q := seq(|p|, k requires 0 <= k < |p| => to[p[k]]);
    forall k | 0 <= k < |q| - 1 ensures Share(UsesOf(b), q[k], q[k + 1]) {
      assert Share(UsesOf(a), p[k], p[k + 1]);
      var alias :| (p[k], alias) in UsesOf(a) && (p[k + 1], alias) in UsesOf(a);
      assert (q[k], alias) in UsesOf(b) && (q[k + 1], alias) in UsesOf(b);
    }
    assert IsChain(UsesOf(b), q, to[i], to[j]);
  }

  /** A one-to-one map into a set shows it is at least as large. */
  lemma {:induction false} InjectionBound(a: set<nat>, b: set<nat>, f: map<nat, nat>)
    requires a <= f.Keys && (forall i :: i in a ==> f[i] in b)
    requires forall i, j :: i in a && j in a && f[i] == f[j] ==> i == j
    ensures |a| <= |b|
  {
    if a != {} {
      var i :| i in a;
      InjectionBound(a - {i}, b - {f[i]}, f);
    }
  }

  lemma CarryingMoves(a: seq<Record>, b: seq<Record>, to: seq<nat>, from: seq<nat>, i: nat, id: JsString)
    requires Moved(a, b, to, from) && i < |a|
    ensures |Carrying(a, i, id)| <= |Carrying(b, to[i], id)|
  {
    var f := map k: nat | k < |a| :: to[k];
    forall j | j in Carrying(a, i, id) ensures f[j] in Carrying(b, to[i], id) {
      LinkedMoves(a, b, to, from, i, j);
    }
    assert forall j, k :: 0 <= j < |a| && 0 <= k < |a| && to[j] == to[k] ==> from[to[j]] == from[to[k]] && j == k;
    InjectionBound(Carrying(a, i, id), Carrying(b, to[i], id), f);
  }

  lemma AssertedMoves(a: seq<Record>, b: seq<Record>, to: seq<nat>, from: seq<nat>, i: nat, scheme: Scheme, v: JsString)
    requires Moved(a, b, to, from) && i < |a| && Asserted(a, i, scheme, v)
    ensures Asserted(b, to[i], scheme, v)
  {
    var j: nat :| j < |a| && Linked(UsesOf(a), i, j) && AliasOf(scheme, v) in a[j].aliases;
    LinkedMoves(a, b, to, from, i, j);
    assert AliasOf(scheme, v) in b[to[j]].aliases;
  }

  lemma CompanyMoves(a: seq<Record>, b: seq<Record>, to: seq<nat>, from: seq<nat>, i: nat)
    requires Moved(a, b, to, from) && i < |a| && HasCompany(a, i)
    ensures HasCompany(b, to[i])
  {
    var j: nat :| j < |a| && j != i && Linked(UsesOf(a), i, j);
    LinkedMoves(a, b, to, from, i, j);
    assert from[to[j]] != from[to[i]];
  }

  lemma ConflictMoves(a: seq<Record>, b: seq<Record>, to: seq<nat>, from: seq<nat>, i: nat, c: Conflict)
    requires Moved(a, b, to, from) && IsConflictOf(a, i, c)
    ensures IsConflictOf(b, to[i], c)
  {
    MovedBack(a, b, to, from);
    CompanyMoves(a, b, to, from, i);
    forall id ensures |Carrying(a, i, id)| == |Carrying(b, to[i], id)| {
      CarryingMoves(a, b, to, from, i, id);
      CarryingMoves(b, a, from, to, to[i], id);
    }
    forall v ensures Asserted(a, i, c.scheme, v) <==> Asserted(b, to[i], c.scheme, v) {
      if Asserted(a, i, c.scheme, v) { AssertedMoves(a, b, to, from, i, c.scheme, v); }
      if Asserted(b, to[i], c.scheme, v) { AssertedMoves(b, a, from, to, to[i], c.scheme, v); }
    }
  }

  lemma ReporterMoves(a: seq<Record>, b: seq<Record>, to: seq<nat>, from: seq<nat>, i: nat, c: Conflict)
    requires Moved(a, b, to, from) && i in Reporters(a, c)
    ensures LeaderOf(UsesOf(b), to[i]) in Reporters(b, c)
  {
    ConflictMoves(a, b, to, from, i, c);
    LinkedConflict(b, to[i], LeaderOf(UsesOf(b), to[i]), c);
  }

  lemma LeadersApart(a: seq<Record>, b: seq<Record>, to: seq<nat>, from: seq<nat>, i: nat, j: nat)
    requires Moved(a, b, to, from) && i < |a| && j < |a| && IsLeader(UsesOf(a), i) && IsLeader(UsesOf(a), j)
    requires LeaderOf(UsesOf(b), to[i]) == LeaderOf(UsesOf(b), to[j])
    ensures i == j
  {
    var uses, l := UsesOf(b), LeaderOf(UsesOf(b), to[i]);
    LinkedSymmetric(uses, to[j], l);
    LinkedTransitive(uses, to[i], l, to[j]);
    MovedBack(a, b, to, from);
    LinkedMoves(b, a, from, to, to[i], to[j]);
    LinkedSymmetric(UsesOf(a), i, j);
  }

  lemma ReportersMove(a: seq<Record>, b: seq<Record>, to: seq<nat>, from: seq<nat>, c: Conflict)
    requires Moved(a, b, to, from)
    ensures |Reporters(a, c)| <= |Reporters(b, c)|
  {
    var f := map i: nat | i < |a| :: LeaderOf(UsesOf(b), to[i]);
    forall i | i in Reporters(a, c) ensures f[i] in Reporters(b, c) { ReporterMoves(a, b, to, from, i, c); }
    forall i, j | i in Reporters(a, c) && j in Reporters(a, c) && f[i] == f[j] ensures i == j {
      LeadersApart(a, b, to, from, i, j);
    }
    InjectionBound(Reporters(a, c), Reporters(b, c), f);
  }

  /** Moving the records around leaves the multiset of reported conflicts unchanged. */
  lemma ReportIgnoresOrder(a: seq<Record>, b: seq<Record>, to: seq<nat>, from: seq<nat>)
    requires Moved(a, b, to, from)
    ensures multiset(Report(a)) == multiset(Report(b))
  {
    MovedBack(a, b, to, from);
    forall c ensures multiset(Report(a))[c] == multiset(Report(b))[c] {
      ReportCountsClusters(a, c);
      ReportCountsClusters(b, c);
      ReportersMove(a, b, to, from, c);
      ReportersMove(b, a, from, to, c);
    }
  }

  // ------------------------------------------------------- the listed report

  lemma ByKeyIsOrder(collation: Collation)
    requires IsTotal(collation) && IsTransitive(collation)
    ensures IsTotal(ByKey(collation)) && IsTransitive(ByKey(collation)) && IsByKey(ByKey(collation), KeyOf, collation)
  {
    var leq := ByKey(collation);
    forall c: Conflict, d: Conflict ensures leq(c, d) || leq(d, c) {
      assert collation(KeyOf(c), KeyOf(d)) || collation(KeyOf(d), KeyOf(c));
    }
    forall c: Conflict, d: Conflict, e: Conflict | leq(c, d) && leq(d, e) ensures leq(c, e) {
      assert collation(KeyOf(c), KeyOf(d)) && collation(KeyOf(d), KeyOf(e));
    }
  }

  /** Scheme, colon, and the citation ids joined by a bar. */
  function ListKey(c: Conflict): JsString {
    AliasOf(c.scheme, if c.citationIds == [] then [] else JsSplit.Join(124, c.citationIds))
  }

  ghost predicate InListOrder(conflicts: seq<Conflict>, collation: Collation) {
    forall i, j :: 0 <= i < j < |conflicts| ==> collation(ListKey(conflicts[i]), ListKey(conflicts[j]))
  }

  /** The report is listed in the order of its keys and holds exactly the conflicts of the clusters. */
  lemma ReportIsListed(records: seq<Record>, collation: Collation)
    requires IsTotal(collation) && IsTransitive(collation)
    ensures InListOrder(SortedReport(records, collation), collation)
    ensures multiset(SortedReport(records, collation)) == multiset(Report(records))
  {
    var listed := SortedReport(records, collation);
    ByKeyIsOrder(collation);
    SortSorts(ByKey(collation), Report(records));
    forall i, j | 0 <= i < j < |listed| ensures collation(ListKey(listed[i]), ListKey(listed[j])) {
      KeyIsListKey(listed[i]);
      KeyIsListKey(listed[j]);
      assert ByKey(collation)(listed[i], listed[j]);
    }
  }

  lemma KeyIsListKey(c: Conflict)
    ensures KeyOf(c) == ListKey(c)
  {
    AliasIsPrefixed(c.scheme, if c.citationIds == [] then [] else JsSplit.Join(124, c.citationIds));
  }

  /** The list holds a conflict exactly when some cluster has it. */
  lemma ListingIsExact(records: seq<Record>, collation: Collation, c: Conflict)
    ensures c in SortedReport(records, collation) <==> exists i: nat :: IsConflictOf(records, i, c)
  {
    var listed, report := SortedReport(records, collation), Report(records);
    assert c in listed <==> c in multiset(listed);
    assert c in report <==> c in multiset(report);
    ReportIsExact(records, c);
  }

  /** Citation ids tell the records apart and do not hold the unit that joins them. */
  ghost predicate PlainIds(records: seq<Record>) {
    && (forall i, j :: 0 <= i < j < |records| ==> records[i].citationId != records[j].citationId)
    && forall i :: 0 <= i < |records| ==> BAR !in records[i].citationId
  }

  lemma PrefixTells(c: Conflict, d: Conflict)
    requires KeyOf(c) == KeyOf(d)
    ensures c.scheme == d.scheme
  {
    assert Prefix(c.scheme)[0] == KeyOf(c)[0] && Prefix(d.scheme)[0] == KeyOf(d)[0];
  }

  lemma IdIsListed(records: seq<Record>, i: nat, c: Conflict)
    requires IsConflictOf(records, i, c)
    ensures records[i].citationId in c.citationIds
  {
    LinkedReflexive(UsesOf(records), i);
    assert i in Carrying(records, i, records[i].citationId);
    assert records[i].citationId in multiset(c.citationIds);
  }

  lemma ListedIdIsCarried(records: seq<Record>, i: nat, c: Conflict, id: JsString) returns (j: nat)
    requires IsConflictOf(records, i, c) && id in c.citationIds
    ensures j in Carrying(records, i, id)
  {
    assert id in multiset(c.citationIds);
    assert Carrying(records, i, id) != {};
    j :| j in Carrying(records, i, id);
  }

  lemma IdsAreRead(records: seq<Record>, i: nat, c: Conflict)
    requires PlainIds(records) && IsConflictOf(records, i, c)
    ensures c.citationIds != [] && JsSplit.Split(BAR, JsSplit.Join(BAR, c.citationIds)) == c.citationIds
  {
    IdIsListed(records, i, c);
    forall k | 0 <= k < |c.citationIds| ensures BAR !in c.citationIds[k] {
      var j := ListedIdIsCarried(records, i, c, c.citationIds[k]);
    }
    JsSplit.SplitUndoesJoin(BAR, c.citationIds);
  }

  lemma SameIdsSameConflict(records: seq<Record>, i: nat, j: nat, c: Conflict, d: Conflict)
    requires PlainIds(records) && IsConflictOf(records, i, c) && IsConflictOf(records, j, d)
    requires c.scheme == d.scheme && c.citationIds == d.citationIds
    ensures c == d
  {
    IdIsListed(records, i, c);
    var k := ListedIdIsCarried(records, j, d, records[i].citationId);
    assert k == i;
    LinkedConflict(records, j, i, d);
    ValuesUnique(records, i, c.scheme, c.values, d.values);
  }

  /** With plain ids the key of a conflict says which conflict it is. */
  lemma KeysTell(records: seq<Record>, c: Conflict, d: Conflict)
    requires PlainIds(records) && c in Report(records) && d in Report(records) && KeyOf(c) == KeyOf(d)
    ensures c == d
  {
    ReportIsExact(records, c);
    ReportIsExact(records, d);
    var i: nat :| IsConflictOf(records, i, c);
    var j: nat :| IsConflictOf(records, j, d);
    PrefixTells(c, d);
    IdsAreRead(records, i, c);
    IdsAreRead(records, j, d);
    CutAt(Prefix(c.scheme), JsSplit.Join(BAR, c.citationIds), Prefix(d.scheme), JsSplit.Join(BAR, d.citationIds));
    SameIdsSameConflict(records, i, j, c, d);
  }

  /**
   * When the collation tells the keys of the report apart, their listing does
   * not depend on the order of the records; with plain ids nothing in it does.
   */
  lemma ListingIgnoresOrder(a: seq<Record>, b: seq<Record>, to: seq<nat>, from: seq<nat>, collation: Collation)
    requires Moved(a, b, to, from) && IsTotal(collation) && IsTransitive(collation)
    requires TellsApart(collation, Mapped(KeyOf, Report(a)))
    ensures Mapped(KeyOf, SortedReport(a, collation)) == Mapped(KeyOf, SortedReport(b, collation))
    ensures PlainIds(a) ==> SortedReport(a, collation) == SortedReport(b, collation)
  {
    ReportIgnoresOrder(a, b, to, from);
    ByKeyIsOrder(collation);
    SortedKeysIgnoreOrder(ByKey(collation), KeyOf, collation, Report(a), Report(b));
    if PlainIds(a) {
      KeysTellApart(a, collation);
      SortIgnoresOrder(ByKey(collation), Report(a), Report(b));
    }
  }

  lemma KeysTellApart(records: seq<Record>, collation: Collation)
    requires PlainIds(records) && TellsApart(collation, Mapped(KeyOf, Report(records)))
    ensures TellsApart(ByKey(collation), Report(records))
  {
    var report := Report(records);
    forall c, d | c in report && d in report && ByKey(collation)(c, d) && ByKey(collation)(d, c) ensures c == d {
      var m :| 0 <= m < |report| && report[m] == c;
      var n :| 0 <= n < |report| && report[n] == d;
      assert Mapped(KeyOf, report)[m] == KeyOf(c) && Mapped(KeyOf, report)[n] == KeyOf(d);
      KeysTell(records, c, d);
    }
  }
}

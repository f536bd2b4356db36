/** The loops of findWorkIdentifierConflicts. */
module WorkConflicts {
  import opened Prelude
  import opened JsText
  import opened Sorting
  import opened UnionFinds
  import opened WorkIdentity
  import W = WorkTheorems

  /** The occurrences handled before alias k of record index. */
  ghost predicate Handled(uses: Uses, records: seq<Record>, index: nat, k: nat)
    requires index < |records| ==> k <= |records[index].aliases|
  {
    forall i: nat, a :: (i, a) in uses <==>
      i < |records| && ((i < index && a in records[i].aliases) || (i == index && a in records[i].aliases[..k]))
  }

  /** `firstByAlias` knows one use of every alias seen. */
  ghost predicate Knows(firstByAlias: map<JsString, nat>, uses: Uses) {
    && (forall a :: a in firstByAlias ==> (firstByAlias[a], a) in uses)
    && forall u :: u in uses ==> u.1 in firstByAlias
  }

  method UniteByAlias(records: seq<Record>) returns (forest: UnionFind)
    ensures fresh(forest) && fresh(forest.parent) && forest.Valid()
    ensures |forest.root| == |records| && Agrees(forest.root, UsesOf(records))
  {
    forest := new UnionFind(|records|);
    AgreesAtStart(|records|);
    var firstByAlias: map<JsString, nat> := map[];
    ghost var uses: Uses := {};
    var index := 0;
    while index < |records|
      invariant index <= |records| && forest.Valid() && |forest.root| == |records|
      invariant fresh(forest) && fresh(forest.parent)
      invariant Agrees(forest.root, uses) && Knows(firstByAlias, uses) && Handled(uses, records, index, 0)
    {
      firstByAlias, uses := UniteRecord(forest, records, index, firstByAlias, uses);
      index := index + 1;
    }
    forall u | u in uses ensures u in UsesOf(records) { assert (u.0, u.1) in uses; }
    forall u | u in UsesOf(records) ensures u in uses { assert (u.0, u.1) in uses; }
    assert uses == UsesOf(records);
  }

  method UniteRecord(
    forest: UnionFind, records: seq<Record>, index: nat, firstByAlias: map<JsString, nat>, ghost uses: Uses)
    returns (known: map<JsString, nat>, ghost used: Uses)
    requires forest.Valid() && |forest.root| == |records| && index < |records|
    requires Agrees(forest.root, uses) && Knows(firstByAlias, uses) && Handled(uses, records, index, 0)
    modifies forest, forest.parent
    ensures forest.Valid() && |forest.root| == |records|
    ensures Agrees(forest.root, used) && Knows(known, used) && Handled(used, records, index + 1, 0)
  {
    known, used := firstByAlias, uses;
    var aliases := records[index].aliases;
    var k := 0;
    while k < |aliases|
      invariant k <= |aliases| && forest.Valid() && |forest.root| == |records|
      invariant Agrees(forest.root, used) && Knows(known, used) && Handled(used, records, index, k)
    {
      var alias := aliases[k];
      assert aliases[..k + 1] == aliases[..k] + [alias];
      if alias !in known {
        FirstUse(forest.root, used, index, alias);
        known := known[alias := index];
      } else {
        assert (known[alias], alias) in used;
        LaterUse(forest.root, used, known[alias], index, alias);
        forest.Union(known[alias], index);
      }
      used := used + {(index, alias)};
      k := k + 1;
    }
    assert aliases[..k] == aliases;
  }

  // ----------------------------------------------------------------- groups

  /** The indexes below n of one class, ascending. */
  function Class(root: seq<nat>, r: nat, n: nat): seq<nat>
    requires n <= |root|
  {
    if n == 0 then [] else Class(root, r, n - 1) + if root[n - 1] == r then [n - 1] else []
  }

  /** The representatives of the indexes below n, in order of first appearance. */
  function Roots(root: seq<nat>, n: nat): (r: seq<nat>)
    requires n <= |root|
    ensures forall x :: x in r <==> exists i :: 0 <= i < n && root[i] == x
  {
    if n == 0 then [] else
      var before := Roots(root, n - 1);
      if root[n - 1] in before then before else before + [root[n - 1]]
  }

  /** A JavaScript Map: its keys in insertion order, and its entries. */
  datatype Groups = Groups(order: seq<nat>, entries: map<nat, seq<nat>>) {
    /** `groups.set(root, [...(groups.get(root) ?? []), index])` */
    function With(root: nat, index: nat): Groups {
      if root in entries then Groups(order, entries[root := entries[root] + [index]])
      else Groups(order + [root], entries[root := [index]])
    }
  }

  ghost predicate GroupsAre(groups: Groups, root: seq<nat>, n: nat)
    requires n <= |root|
  {
    && groups.order == Roots(root, n)
    && (forall r :: r in groups.entries <==> r in groups.order)
    && forall r :: r in groups.entries ==> groups.entries[r] == Class(root, r, n)
  }

  lemma JoinsGroup(groups: Groups, root: seq<nat>, index: nat)
    requires index < |root| && GroupsAre(groups, root, index)
    ensures GroupsAre(groups.With(root[index], index), root, index + 1)
  {
    if root[index] !in groups.entries { ClassOfNewRoot(root, root[index], index); }
  }

  method GroupByRoot(forest: UnionFind) returns (groups: Groups)
    requires forest.Valid()
    modifies forest.parent
    ensures forest.Valid() && GroupsAre(groups, forest.root, |forest.root|)
  {
    groups := Groups([], map[]);
    ghost var roots := forest.root;
    var index := 0;
    while index < forest.parent.Length
      invariant index <= forest.parent.Length && forest.Valid()
      invariant forest.root == roots && GroupsAre(groups, roots, index)
    {
      var root := forest.Find(index);
      JoinsGroup(groups, roots, index);
      groups := groups.With(root, index);
      index := index + 1;
    }
  }

  lemma {:induction false} ClassOfNewRoot(root: seq<nat>, r: nat, n: nat)
    requires n <= |root| && r !in Roots(root, n)
    ensures Class(root, r, n) == []
  {
    if n > 0 {
      assert root[n - 1] in Roots(root, n);
      ClassOfNewRoot(root, r, n - 1);
    }
  }

  // ----------------------------------------------------------------- values

  method CollectValues(records: seq<Record>, group: seq<nat>, scheme: Scheme) returns (values: seq<JsString>)
    requires Indexes(records, group)
    ensures values == ValuesOf([], records, group, scheme)
  {
    values := [];
    var g := 0;
    while g < |group|
      invariant g <= |group|
      invariant ValuesOf(values, records, group[g..], scheme) == ValuesOf([], records, group, scheme)
    {
      var aliases := records[group[g]].aliases;
      ghost var before := values;
      var k := 0;
      while k < |aliases|
        invariant k <= |aliases|
        invariant AddValues(values, aliases[k..], scheme) == AddValues(before, aliases, scheme)
      {
        assert aliases[k..][1..] == aliases[k + 1..];
        values := AddValue(values, aliases[k], scheme);
        k := k + 1;
      }
      assert group[g..][1..] == group[g + 1..];
      g := g + 1;
    }
  }

  method ConflictsOfGroup(records: seq<Record>, group: seq<nat>) returns (conflicts: seq<Conflict>)
    requires Indexes(records, group)
    ensures conflicts == ClusterConflicts(records, group)
  {
    conflicts := [];
    if |group| < 2 { return; }
    var schemes := [Doi, Pmid, OpenAlex];
    var s := 0;
    while s < 3
      invariant s <= 3
      invariant conflicts
             == (if s > 0 then SchemeConflicts(records, group, Doi) else [])
              + (if s > 1 then SchemeConflicts(records, group, Pmid) else [])
              + (if s > 2 then SchemeConflicts(records, group, OpenAlex) else [])
    {
      var values := CollectValues(records, group, schemes[s]);
      if |values| >= 2 {
        var sortedValues := Sort(Leq, values);
        var citationIds := Sort(Leq, Ids(records, group));
        conflicts := conflicts + [Conflict(citationIds, schemes[s], sortedValues)];
      }
      s := s + 1;
    }
  }

  // ------------------------------------------- representatives and clusters

  lemma {:induction false} ClassIsCluster(root: seq<nat>, uses: Uses, i: nat, n: nat)
    requires Agrees(root, uses) && i < |root| && n <= |root|
    ensures Class(root, root[i], n) == Cluster(uses, i, n)
  {
    if n > 0 { ClassIsCluster(root, uses, i, n - 1); }
  }

  ghost predicate RootsOf(root: seq<nat>, leaders: seq<nat>, roots: seq<nat>) {
    |leaders| == |roots| && forall k :: 0 <= k < |leaders| ==> leaders[k] < |root| && roots[k] == root[leaders[k]]
  }

  /** The groups appear in the order of their leaders. */
  lemma {:induction false} RootsAreLeaders(root: seq<nat>, uses: Uses, n: nat)
    requires Agrees(root, uses) && n <= |root|
    ensures RootsOf(root, Leaders(uses, n), Roots(root, n))
  {
    if n > 0 {
      RootsAreLeaders(root, uses, n - 1);
      assert root[n - 1] in Roots(root, n - 1) <==> exists j: nat :: j < n - 1 && root[j] == root[n - 1];
      assert IsLeader(uses, n - 1) <==> root[n - 1] !in Roots(root, n - 1) by {
        if !IsLeader(uses, n - 1) {
          var j: nat :| j < n - 1 && Linked(uses, n - 1, j);
          assert root[j] == root[n - 1];
        }
      }
    }
  }

  /** Every conflict, cluster by cluster. */
  method CollectConflicts(records: seq<Record>) returns (conflicts: seq<Conflict>)
    ensures conflicts == Report(records)
  {
    var forest := UniteByAlias(records);
    var groups := GroupByRoot(forest);
    ghost var root, uses := forest.root, UsesOf(records);
    ghost var leaders := Leaders(uses, |records|);
    RootsAreLeaders(root, uses, |records|);
    conflicts := [];
    var g := 0;
    while g < |groups.order|
      invariant g <= |groups.order| == |leaders|
      invariant conflicts == ReportOf(records, leaders[..g])
    {
      var group := groups.entries[groups.order[g]];
      ClassIsCluster(root, uses, leaders[g], |records|);
      assert group == ClusterOf(records, leaders[g]);
      var found := ConflictsOfGroup(records, group);
      assert leaders[..g + 1][..g] == leaders[..g];
      conflicts := conflicts + found;
      g := g + 1;
    }
    assert leaders[..g] == leaders;
  }

  /** Every conflict, then ordered by text. */
  method FindConflicts(records: seq<Record>, collation: Collation) returns (conflicts: seq<Conflict>)
    ensures conflicts == SortedReport(records, collation)
    ensures forall c :: c in conflicts <==> exists i: nat :: W.IsConflictOf(records, i, c)
    ensures IsTotal(collation) && IsTransitive(collation) ==> W.InListOrder(conflicts, collation)
  {
    var found := CollectConflicts(records);
    conflicts := Sort(ByKey(collation), found);
    forall c ensures c in SortedReport(records, collation) <==> exists i: nat :: W.IsConflictOf(records, i, c) {
      W.ListingIsExact(records, collation, c);
    }
    if IsTotal(collation) && IsTransitive(collation) { W.ReportIsListed(records, collation); }
  }
}

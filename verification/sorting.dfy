/** Stable sorting by a comparator, as Array.prototype.sort promises it. */
module Sorting {
  import opened Prelude

  ghost predicate IsTotal<T(!new)>(leq: (T, T) -> bool) {
    forall x, y :: leq(x, y) || leq(y, x)
  }

  ghost predicate IsTransitive<T(!new)>(leq: (T, T) -> bool) {
    forall x, y, z :: leq(x, y) && leq(y, z) ==> leq(x, z)
  }

  ghost predicate IsAntisymmetric<T(!new)>(leq: (T, T) -> bool) {
    forall x, y :: leq(x, y) && leq(y, x) ==> x == y
  }

  ghost predicate Sorted<T>(leq: (T, T) -> bool, s: seq<T>) {
    forall i, j :: 0 <= i < j < |s| ==> leq(s[i], s[j])
  }

  /** Before the first element that does not precede x, so equal elements keep their order. */
  function Insert<T>(leq: (T, T) -> bool, x: T, s: seq<T>): (r: seq<T>)
    ensures |r| == |s| + 1
    ensures multiset(r) == multiset{x} + multiset(s)
  {
    if s == [] || leq(x, s[0]) then
      [x] + s
    else
      assert s == [s[0]] + s[1..];
      [s[0]] + Insert(leq, x, s[1..])
  }

  function Sort<T>(leq: (T, T) -> bool, s: seq<T>): (r: seq<T>)
    ensures |r| == |s|
    ensures multiset(r) == multiset(s)
  {
    if s == [] then [] else
      assert s == [s[0]] + s[1..];
      Insert(leq, s[0], Sort(leq, s[1..]))
  }

  lemma {:induction false} InsertSorted<T(!new)>(leq: (T, T) -> bool, x: T, s: seq<T>)
    requires IsTotal(leq) && IsTransitive(leq) && Sorted(leq, s)
    ensures Sorted(leq, Insert(leq, x, s))
  {
    if s == [] {
    } else if leq(x, s[0]) {
      var r := Insert(leq, x, s);
      forall i, j | 0 <= i < j < |r| ensures leq(r[i], r[j]) {
        if i == 0 && j > 1 { assert leq(s[0], s[j - 1]); }
      }
    } else {
      InsertSorted(leq, x, s[1..]);
      var t := Insert(leq, x, s[1..]);
      assert leq(s[0], x);
      forall k | 0 <= k < |t| ensures leq(s[0], t[k]) {
        assert t[k] in multiset(t);
        assert t[k] in multiset{x} || t[k] in multiset(s[1..]);
        if t[k] != x { var m :| 0 <= m < |s[1..]| && s[1..][m] == t[k]; assert leq(s[0], s[m + 1]); }
      }
      var r := Insert(leq, x, s);
      forall i, j | 0 <= i < j < |r| ensures leq(r[i], r[j]) {
        if i == 0 { assert r[j] == t[j - 1]; }
      }
    }
  }

  lemma {:induction false} SortSorts<T(!new)>(leq: (T, T) -> bool, s: seq<T>)
    requires IsTotal(leq) && IsTransitive(leq)
    ensures Sorted(leq, Sort(leq, s))
  {
    if s != [] {
      SortSorts(leq, s[1..]);
      InsertSorted(leq, s[0], Sort(leq, s[1..]));
    }
  }

  lemma LeastIsFirst<T(!new)>(leq: (T, T) -> bool, a: seq<T>, b: seq<T>)
    requires IsTotal(leq) && Sorted(leq, a) && a != [] && b != [] && multiset(a) == multiset(b)
    ensures leq(a[0], b[0])
  {
    assert b[0] in multiset(b);
    assert b[0] in a;
    var j :| 0 <= j < |a| && a[j] == b[0];
    assert leq(a[0], a[0]);
  }

  lemma TailsAgree<T>(a: seq<T>, b: seq<T>)
    requires a != [] && b != [] && a[0] == b[0] && multiset(a) == multiset(b)
    ensures multiset(a[1..]) == multiset(b[1..])
  {
    assert a == [a[0]] + a[1..] && b == [b[0]] + b[1..];
    assert multiset(a[1..]) == multiset(a) - multiset{a[0]};
    assert multiset(b[1..]) == multiset(b) - multiset{b[0]};
  }

  /** The order tells the elements apart. */
  ghost predicate TellsApart<T(!new)>(leq: (T, T) -> bool, s: seq<T>) {
    forall x, y :: x in s && y in s && leq(x, y) && leq(y, x) ==> x == y
  }

  /** A collection that the order tells apart has one sorted listing. */
  lemma {:induction false} SortedListingUnique<T(!new)>(leq: (T, T) -> bool, a: seq<T>, b: seq<T>)
    requires IsTotal(leq) && TellsApart(leq, a)
    requires Sorted(leq, a) && Sorted(leq, b) && multiset(a) == multiset(b)
    ensures a == b
  {
    assert |multiset(a)| == |a| && |multiset(b)| == |b|;
    if a != [] {
      LeastIsFirst(leq, a, b);
      LeastIsFirst(leq, b, a);
      assert b[0] in multiset(a);
      TailsAgree(a, b);
      SortedListingUnique(leq, a[1..], b[1..]);
      assert a == [a[0]] + a[1..] && b == [b[0]] + b[1..];
    }
  }

  /** Sorting depends only on which elements there are, not on their order. */
  lemma SortIgnoresOrder<T(!new)>(leq: (T, T) -> bool, a: seq<T>, b: seq<T>)
    requires IsTotal(leq) && IsTransitive(leq) && TellsApart(leq, a)
    requires multiset(a) == multiset(b)
    ensures Sort(leq, a) == Sort(leq, b)
  {
    SortSorts(leq, a);
    SortSorts(leq, b);
    forall x | x in Sort(leq, a) ensures x in a { assert x in multiset(a); }
    SortedListingUnique(leq, Sort(leq, a), Sort(leq, b));
  }

  // ---------------------------------------------------------- sorting by key

  function Mapped<T, K>(key: T -> K, s: seq<T>): (r: seq<K>)
    ensures |r| == |s| && forall i :: 0 <= i < |s| ==> r[i] == key(s[i])
  {
    seq(|s|, i requires 0 <= i < |s| => key(s[i]))
  }

  /** The order of elements is the order of their keys. */
  ghost predicate IsByKey<T(!new), K>(leq: (T, T) -> bool, key: T -> K, keyLeq: (K, K) -> bool) {
    forall x, y :: leq(x, y) <==> keyLeq(key(x), key(y))
  }

  lemma MappedConcat<T, K>(key: T -> K, a: seq<T>, b: seq<T>)
    ensures Mapped(key, a + b) == Mapped(key, a) + Mapped(key, b)
  {
  }

  lemma MappedTail<T, K>(key: T -> K, s: seq<T>)
    requires s != []
    ensures Mapped(key, s)[0] == key(s[0]) && Mapped(key, s)[1..] == Mapped(key, s[1..])
  {
  }

  lemma {:induction false} InsertMapped<T(!new), K>(
    leq: (T, T) -> bool, key: T -> K, keyLeq: (K, K) -> bool, x: T, s: seq<T>)
    requires IsByKey(leq, key, keyLeq)
    ensures Mapped(key, Insert(leq, x, s)) == Insert(keyLeq, key(x), Mapped(key, s))
  {
    if s == [] {
    } else if leq(x, s[0]) {
      MappedConcat(key, [x], s);
    } else {
      MappedTail(key, s);
      InsertMapped(leq, key, keyLeq, x, s[1..]);
      MappedConcat(key, [s[0]], Insert(leq, x, s[1..]));
    }
  }

  /** Sorting by key and then reading the keys is sorting the keys. */
  lemma {:induction false} SortMapped<T(!new), K>(leq: (T, T) -> bool, key: T -> K, keyLeq: (K, K) -> bool, s: seq<T>)
    requires IsByKey(leq, key, keyLeq)
    ensures Mapped(key, Sort(leq, s)) == Sort(keyLeq, Mapped(key, s))
  {
    if s != [] {
      MappedTail(key, s);
      SortMapped(leq, key, keyLeq, s[1..]);
      InsertMapped(leq, key, keyLeq, s[0], Sort(leq, s[1..]));
    }
  }

  /** One occurrence of x taken out. */
  lemma TakenOut<T>(s: seq<T>, x: T) returns (front: seq<T>, back: seq<T>)
    requires x in s
    ensures s == front + ([x] + back)
  {
    var j :| 0 <= j < |s| && s[j] == x;
    front, back := s[..j], s[j + 1..];
  }

  lemma TakenOutCounts<T>(front: seq<T>, x: T, back: seq<T>)
    ensures multiset(front + ([x] + back)) == multiset{x} + multiset(front + back)
  {
  }

  lemma SameRest<T>(x: T, m: multiset<T>, n: multiset<T>)
    requires multiset{x} + m == multiset{x} + n
    ensures m == n
  {
    assert m == multiset{x} + m - multiset{x} && n == multiset{x} + n - multiset{x};
  }

  lemma {:induction false} MappedCounts<T, K>(key: T -> K, a: seq<T>, b: seq<T>)
    requires multiset(a) == multiset(b)
    ensures multiset(Mapped(key, a)) == multiset(Mapped(key, b))
  {
    if a == [] {
      assert |multiset(b)| == 0;
    } else {
      var x := a[0];
      assert x in multiset(b);
      var front, back := TakenOut(b, x);
      assert a == [] + ([x] + a[1..]);
      TakenOutCounts([], x, a[1..]);
      TakenOutCounts(front, x, back);
      assert [] + a[1..] == a[1..] && b == front + ([x] + back);
      assert multiset{x} + multiset(a[1..]) == multiset{x} + multiset(front + back);
      SameRest(x, multiset(a[1..]), multiset(front + back));
      MappedCounts(key, a[1..], front + back);
      MappedStep(key, [], x, a[1..]);
      MappedStep(key, front, x, back);
    }
  }

  lemma MappedStep<T, K>(key: T -> K, front: seq<T>, x: T, back: seq<T>)
    ensures multiset(Mapped(key, front + ([x] + back))) == multiset{key(x)} + multiset(Mapped(key, front + back))
  {
    MappedConcat(key, front, [x] + back);
    MappedConcat(key, [x], back);
    MappedConcat(key, front, back);
    assert Mapped(key, [x]) == [key(x)];
    TakenOutCounts(Mapped(key, front), key(x), Mapped(key, back));
  }

  /** The keys of a sorted listing depend only on which elements there are. */
  lemma SortedKeysIgnoreOrder<T(!new), K(!new)>(
    leq: (T, T) -> bool, key: T -> K, keyLeq: (K, K) -> bool, a: seq<T>, b: seq<T>)
    requires IsTotal(keyLeq) && IsTransitive(keyLeq) && IsByKey(leq, key, keyLeq)
    requires TellsApart(keyLeq, Mapped(key, a)) && multiset(a) == multiset(b)
    ensures Mapped(key, Sort(leq, a)) == Mapped(key, Sort(leq, b))
  {
    MappedCounts(key, a, b);
    SortIgnoresOrder(keyLeq, Mapped(key, a), Mapped(key, b));
    SortMapped(leq, key, keyLeq, a);
    SortMapped(leq, key, keyLeq, b);
  }

  /** The elements with one key, in order. */
  function WithKey<T, K(==)>(key: T -> K, k: K, s: seq<T>): seq<T> {
    if s == [] then [] else (if key(s[0]) == k then [s[0]] else []) + WithKey(key, k, s[1..])
  }

  lemma {:induction false} InsertIsStable<T(!new), K(!new)>(
    leq: (T, T) -> bool, key: T -> K, keyLeq: (K, K) -> bool, x: T, s: seq<T>, k: K)
    requires IsTotal(keyLeq) && IsByKey(leq, key, keyLeq)
    ensures WithKey(key, k, Insert(leq, x, s)) == WithKey(key, k, [x] + s)
  {
    assert ([x] + s)[1..] == s;
    if s != [] && !leq(x, s[0]) {
      InsertIsStable(leq, key, keyLeq, x, s[1..], k);
      assert ([x] + s[1..])[1..] == s[1..];
      assert key(x) != key(s[0]);
      assert Insert(leq, x, s)[1..] == Insert(leq, x, s[1..]);
    }
  }

  /** Elements with equal keys keep their order. */
  lemma {:induction false} SortIsStable<T(!new), K(!new)>(
    leq: (T, T) -> bool, key: T -> K, keyLeq: (K, K) -> bool, s: seq<T>, k: K)
    requires IsTotal(keyLeq) && IsByKey(leq, key, keyLeq)
    ensures WithKey(key, k, Sort(leq, s)) == WithKey(key, k, s)
  {
    if s != [] {
      var tail := Sort(leq, s[1..]);
      SortIsStable(leq, key, keyLeq, s[1..], k);
      InsertIsStable(leq, key, keyLeq, s[0], tail, k);
      assert ([s[0]] + tail)[1..] == tail;
    }
  }

  // ----------------------------------------------------------- distinctness

  lemma {:induction false} DistinctCounts<T>(s: seq<T>)
    requires Distinct(s)
    ensures forall x :: x in s ==> multiset(s)[x] == 1
  {
    if s != [] {
      assert s == [s[0]] + s[1..];
      DistinctCounts(s[1..]);
      assert s[0] !in s[1..];
    }
  }

  lemma {:induction false} CountsDistinct<T>(s: seq<T>)
    requires forall x :: x in s ==> multiset(s)[x] == 1
    ensures Distinct(s)
  {
    if s != [] {
      assert s == [s[0]] + s[1..];
      assert s[0] !in s[1..] by { assert multiset(s)[s[0]] == 1 + multiset(s[1..])[s[0]]; }
      forall x | x in s[1..] ensures multiset(s[1..])[x] == 1 { assert multiset(s)[x] == multiset(s[1..])[x]; }
      CountsDistinct(s[1..]);
    }
  }

  lemma SortKeepsDistinct<T>(leq: (T, T) -> bool, s: seq<T>)
    requires Distinct(s)
    ensures Distinct(Sort(leq, s))
  {
    var r := Sort(leq, s);
    DistinctCounts(s);
    forall x | x in r ensures multiset(r)[x] == 1 {
      assert x in multiset(r);
      assert x in s;
    }
    CountsDistinct(r);
  }
}

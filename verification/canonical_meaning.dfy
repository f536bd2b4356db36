/** Normalising computes exactly what a value stands for, or names a fault that is there. */
module CanonicalMeaning {
  import opened Prelude
  import opened JsText
  import opened Sorting
  import T = JsonTrees
  import opened JsonEquality
  import opened CanonicalJson

  // ------------------------------------------------------------- kept keys

  /** The sorted keys from position i on whose members are kept. */
  function KeptFrom(fields: map<JsString, Value>, keys: seq<JsString>, i: nat): (r: seq<JsString>)
    requires i <= |keys|
    decreases |keys| - i
  {
    if i == |keys| then []
    else (if Kept(fields, keys[i]) then [keys[i]] else []) + KeptFrom(fields, keys, i + 1)
  }

  lemma {:induction false} KeptFromSorted(fields: map<JsString, Value>, keys: seq<JsString>, i: nat)
    requires i <= |keys| && StrictlySorted(keys)
    ensures StrictlySorted(KeptFrom(fields, keys, i))
    ensures forall k :: k in KeptFrom(fields, keys, i) <==> k in keys[i..] && Kept(fields, k)
    decreases |keys| - i
  {
    if i < |keys| {
      KeptFromSorted(fields, keys, i + 1);
      assert keys[i..] == [keys[i]] + keys[i + 1..];
      var rest := KeptFrom(fields, keys, i + 1);
      forall n | 0 <= n < |rest| ensures keys[i] != rest[n] && Leq(keys[i], rest[n]) {
        assert rest[n] in keys[i + 1..];
        var m :| 0 <= m < |keys[i + 1..]| && keys[i + 1..][m] == rest[n];
        assert keys[i + 1 + m] == rest[n];
      }
    }
  }

  // ----------------------------------------------------------- what it returns

  /** A successful normalisation returns what the value stands for. */
  lemma {:induction false} Sound(h: Heap, v: Value, seen: set<Ref>, t: T.Tree)
    requires WellFormed(h) && Within(h, v) && Normalized(h, v, seen) == Ok(t)
    ensures Denotes(h, v, t)
    decreases |h.Keys - seen|, 0
  {
    if v.Object? {
      Shrinks(h, seen, v.ref);
      assert WellFormedObject(h, h[v.ref]);
      match h[v.ref]
      case Array(items) => ItemsSound(h, items, 0, seen + {v.ref}, t.items);
      case Plain(keys, fields) =>
        var sorted := Sort(Leq, keys);
        SortKeepsMembers(keys);
        SortedKeys(keys);
        MembersSound(h, fields, sorted, 0, seen + {v.ref}, Assigned(t.members, t.hidden));
        KeptFromSorted(fields, sorted, 0);
        assert sorted[0..] == sorted;
        MembersDenote(h, fields, sorted, t);
    }
  }

  ghost predicate ItemsDenote(h: Heap, items: seq<Value>, i: nat, ts: seq<T.Tree>) {
    i <= |items| && |ts| == |items| - i && forall n :: 0 <= n < |ts| ==> Denotes(h, items[i + n], ts[n])
  }

  lemma {:induction false} ItemsSound(h: Heap, items: seq<Value>, i: nat, seen: set<Ref>, ts: seq<T.Tree>)
    requires WellFormed(h) && i <= |items| && forall n :: 0 <= n < |items| ==> Within(h, items[n])
    requires NormalizedItems(h, items, i, seen) == Ok(ts)
    ensures ItemsDenote(h, items, i, ts)
    decreases |h.Keys - seen|, |items| - i + 1
  {
    if i < |items| {
      Sound(h, items[i], seen, ts[0]);
      ItemsSound(h, items, i + 1, seen, ts[1..]);
      ItemsDenoteCons(h, items, i, ts);
    }
  }

  lemma ItemsDenoteCons(h: Heap, items: seq<Value>, i: nat, ts: seq<T.Tree>)
    requires i < |items| && |ts| > 0 && Denotes(h, items[i], ts[0]) && ItemsDenote(h, items, i + 1, ts[1..])
    ensures ItemsDenote(h, items, i, ts)
  {
    forall n | 0 <= n < |ts| ensures Denotes(h, items[i + n], ts[n]) {
      if n > 0 { assert ts[1..][n - 1] == ts[n] && items[i + 1 + (n - 1)] == items[i + n]; }
    }
  }

  ghost predicate MemberDenotes(h: Heap, fields: map<JsString, Value>, m: T.Member) {
    m.key in fields && Denotes(h, fields[m.key], m.value)
  }

  /** The assigned members are the kept keys in order, each with its data. */
  ghost predicate AssignedDenotes(h: Heap, fields: map<JsString, Value>, keys: seq<JsString>, i: nat, a: Assigned) {
    && i <= |keys|
    && Keys(a.members) == KeptFrom(fields, keys, i)
    && (forall n :: 0 <= n < |a.members| ==> MemberDenotes(h, fields, a.members[n]))
    && (a.hidden.Some? <==> PROTO in keys[i..] && PROTO in fields && fields[PROTO] != Undefined)
    && (a.hidden.Some? ==> Denotes(h, fields[PROTO], a.hidden.value))
  }

  lemma {:induction false} MembersSound(
    h: Heap, fields: map<JsString, Value>, keys: seq<JsString>, i: nat, seen: set<Ref>, a: Assigned)
    requires WellFormed(h) && i <= |keys|
    requires forall k :: k in keys ==> k in fields && Within(h, fields[k])
    requires NormalizedMembers(h, fields, keys, i, seen) == Ok(a)
    ensures AssignedDenotes(h, fields, keys, i, a)
    decreases |h.Keys - seen|, |keys| - i + 1
  {
    if i < |keys| {
      assert keys[i..] == [keys[i]] + keys[i + 1..];
      if fields[keys[i]] == Undefined {
        MembersSound(h, fields, keys, i + 1, seen, a);
      } else {
        var t := Normalized(h, fields[keys[i]], seen).value;
        var rest := NormalizedMembers(h, fields, keys, i + 1, seen).value;
        Sound(h, fields[keys[i]], seen, t);
        MembersSound(h, fields, keys, i + 1, seen, rest);
        AssignDenotes(h, fields, keys, i, t, rest);
      }
    }
  }

  lemma AssignDenotes(h: Heap, fields: map<JsString, Value>, keys: seq<JsString>, i: nat, t: T.Tree, rest: Assigned)
    requires i < |keys| && keys[i] in fields && fields[keys[i]] != Undefined && Denotes(h, fields[keys[i]], t)
    requires AssignedDenotes(h, fields, keys, i + 1, rest)
    ensures AssignedDenotes(h, fields, keys, i, Assign(keys[i], t, rest))
  {
    assert keys[i..] == [keys[i]] + keys[i + 1..];
    var a := Assign(keys[i], t, rest);
    if keys[i] != PROTO {
      assert Keys(a.members) == [keys[i]] + Keys(rest.members);
      forall n | 0 <= n < |a.members| ensures MemberDenotes(h, fields, a.members[n]) {
        if n > 0 { assert a.members[n] == rest.members[n - 1]; }
      }
    }
  }

  /** Assigning every kept key in sorted order builds the object that is denoted. */
  lemma MembersDenote(h: Heap, fields: map<JsString, Value>, sorted: seq<JsString>, t: T.Tree)
    requires t.Object? && AssignedDenotes(h, fields, sorted, 0, Assigned(t.members, t.hidden))
    requires StrictlySorted(KeptFrom(fields, sorted, 0))
    requires forall k :: k in KeptFrom(fields, sorted, 0) <==> k in sorted && Kept(fields, k)
    requires forall k :: k in sorted <==> k in fields
    ensures StrictlySorted(Keys(t.members)) && forall k :: k in Keys(t.members) <==> Kept(fields, k)
    ensures forall i :: 0 <= i < |t.members| ==> MemberDenotes(h, fields, t.members[i])
    ensures t.hidden.Some? <==> PROTO in fields && fields[PROTO] != Undefined
    ensures t.hidden.Some? ==> Denotes(h, fields[PROTO], t.hidden.value)
  {
    assert sorted[0..] == sorted;
  }

  // --------------------------------------------------- one meaning per value

  /** A value stands for at most one tree. */
  lemma {:induction false} DenotesUnique(h: Heap, v: Value, t: T.Tree, u: T.Tree)
    requires Denotes(h, v, t) && Denotes(h, v, u)
    ensures t == u
    decreases t
  {
    if v.Object? {
      match h[v.ref]
      case Array(items) =>
        forall i | 0 <= i < |items| ensures t.items[i] == u.items[i] {
          DenotesUnique(h, items[i], t.items[i], u.items[i]);
        }
      case Plain(_, fields) =>
        SameMemberKeys(fields, t.members, u.members);
        forall i | 0 <= i < |t.members| ensures t.members[i] == u.members[i] {
          DenotesUnique(h, fields[t.members[i].key], t.members[i].value, u.members[i].value);
        }
        if t.hidden.Some? { DenotesUnique(h, fields[PROTO], t.hidden.value, u.hidden.value); }
    }
  }

  lemma SameMemberKeys(fields: map<JsString, Value>, a: seq<T.Member>, b: seq<T.Member>)
    requires StrictlySorted(Keys(a)) && StrictlySorted(Keys(b))
    requires (forall k :: k in Keys(a) <==> Kept(fields, k)) && (forall k :: k in Keys(b) <==> Kept(fields, k))
    ensures |a| == |b| && forall i :: 0 <= i < |a| ==> a[i].key == b[i].key
  {
    SortedKeysUnique(Keys(a), Keys(b));
    assert |Keys(a)| == |a| && |Keys(b)| == |b|;
    assert forall i :: 0 <= i < |a| ==> Keys(a)[i] == Keys(b)[i];
  }

  // --------------------------------------------------------- every value that
  // ------------------------------------------ stands for something is accepted

  /** Every ancestor stands for a tree that properly contains t. */
  ghost predicate Above(h: Heap, seen: set<Ref>, above: map<Ref, T.Tree>, t: T.Tree) {
    forall r :: r in seen ==> r in above && Denotes(h, Object(r), above[r]) && t < above[r]
  }

  lemma AboveChild(h: Heap, seen: set<Ref>, above: map<Ref, T.Tree>, ref: Ref, t: T.Tree, child: T.Tree)
    requires Above(h, seen, above, t) && Denotes(h, Object(ref), t) && child < t
    ensures Above(h, seen + {ref}, above[ref := t], child)
  {
  }

  lemma {:induction false} Complete(h: Heap, v: Value, seen: set<Ref>, above: map<Ref, T.Tree>, t: T.Tree)
    requires WellFormed(h) && Within(h, v) && Denotes(h, v, t) && Above(h, seen, above, t)
    ensures Normalized(h, v, seen) == Ok(t)
    decreases t, 1, 0
  {
    if v.Object? {
      if v.ref in seen {
        DenotesUnique(h, v, t, above[v.ref]);
        assert false;
      }
      Shrinks(h, seen, v.ref);
      assert WellFormedObject(h, h[v.ref]);
      match h[v.ref]
      case Array(items) => ItemsComplete(h, v.ref, 0, seen, above, t);
      case Plain(keys, fields) =>
        var sorted := Sort(Leq, keys);
        SortKeepsMembers(keys);
        SortedKeys(keys);
        KeptFromSorted(fields, sorted, 0);
        assert sorted[0..] == sorted;
        SortedKeysUnique(Keys(t.members), KeptFrom(fields, sorted, 0));
        MembersComplete(h, v.ref, sorted, 0, 0, seen, above, t);
        assert t.members[0..] == t.members;
    }
  }

  lemma {:induction false} ItemsComplete(
    h: Heap, ref: Ref, i: nat, seen: set<Ref>, above: map<Ref, T.Tree>, t: T.Tree)
    requires WellFormed(h) && ref in h && h[ref].Array? && WellFormedObject(h, h[ref])
    requires Denotes(h, Object(ref), t) && Above(h, seen, above, t) && i <= |t.items|
    ensures NormalizedItems(h, h[ref].items, i, seen + {ref}) == Ok(t.items[i..])
    decreases t, 0, |t.items| - i
  {
    if i < |t.items| {
      AboveChild(h, seen, above, ref, t, t.items[i]);
      Complete(h, h[ref].items[i], seen + {ref}, above[ref := t], t.items[i]);
      ItemsComplete(h, ref, i + 1, seen, above, t);
      assert t.items[i..] == [t.items[i]] + t.items[i + 1..];
    } else {
      assert t.items[i..] == [];
    }
  }

  /** What is still assigned from key i and member j on. */
  function Remaining(t: T.Tree, keys: seq<JsString>, i: nat, j: nat): Assigned
    requires t.Object? && i <= |keys| && j <= |t.members|
  {
    Assigned(t.members[j..], if PROTO in keys[i..] then t.hidden else None)
  }

  lemma RemainingStep(t: T.Tree, keys: seq<JsString>, i: nat, j: nat)
    requires t.Object? && i < |keys| && StrictlySorted(keys) && j <= |t.members|
    ensures keys[i] == PROTO && t.hidden.Some? ==>
              Remaining(t, keys, i, j) == Assign(PROTO, t.hidden.value, Remaining(t, keys, i + 1, j))
    ensures keys[i] != PROTO && j < |t.members| && t.members[j].key == keys[i] ==>
              Remaining(t, keys, i, j) == Assign(keys[i], t.members[j].value, Remaining(t, keys, i + 1, j + 1))
    ensures keys[i] != PROTO || t.hidden.None? ==> Remaining(t, keys, i, j) == Remaining(t, keys, i + 1, j)
  {
    assert keys[i..] == [keys[i]] + keys[i + 1..];
    if j < |t.members| { assert t.members[j..] == [t.members[j]] + t.members[j + 1..]; }
  }

  lemma OneMemberNormalized(
    h: Heap, fields: map<JsString, Value>, keys: seq<JsString>, i: nat, seen: set<Ref>, t: T.Tree, rest: Assigned)
    requires WellFormed(h) && i < |keys| && forall k :: k in keys ==> k in fields && Within(h, fields[k])
    requires fields[keys[i]] != Undefined && Normalized(h, fields[keys[i]], seen) == Ok(t)
    requires NormalizedMembers(h, fields, keys, i + 1, seen) == Ok(rest)
    ensures NormalizedMembers(h, fields, keys, i, seen) == Ok(Assign(keys[i], t, rest))
  {
  }

  /** The value under `__proto__` is normalised to what hides behind the members. */
  lemma {:induction false} HiddenComplete(h: Heap, ref: Ref, seen: set<Ref>, above: map<Ref, T.Tree>, t: T.Tree)
    requires WellFormed(h) && ref in h && h[ref].Plain? && WellFormedObject(h, h[ref])
    requires Denotes(h, Object(ref), t) && Above(h, seen, above, t)
    requires PROTO in h[ref].fields && h[ref].fields[PROTO] != Undefined
    ensures t.hidden.Some? && Normalized(h, h[ref].fields[PROTO], seen + {ref}) == Ok(t.hidden.value)
    decreases t, 0, 0
  {
    AboveChild(h, seen, above, ref, t, t.hidden.value);
    Complete(h, h[ref].fields[PROTO], seen + {ref}, above[ref := t], t.hidden.value);
  }

  /** The value of member j is normalised to that member. */
  lemma {:induction false} MemberComplete(
    h: Heap, ref: Ref, j: nat, seen: set<Ref>, above: map<Ref, T.Tree>, t: T.Tree)
    requires WellFormed(h) && ref in h && h[ref].Plain? && WellFormedObject(h, h[ref])
    requires Denotes(h, Object(ref), t) && Above(h, seen, above, t) && j < |t.members|
    ensures t.members[j].key in h[ref].fields
    ensures Normalized(h, h[ref].fields[t.members[j].key], seen + {ref}) == Ok(t.members[j].value)
    decreases t, 0, 0
  {
    AboveChild(h, seen, above, ref, t, t.members[j].value);
    Complete(h, h[ref].fields[t.members[j].key], seen + {ref}, above[ref := t], t.members[j].value);
  }

  lemma NextKept(fields: map<JsString, Value>, keys: seq<JsString>, i: nat, members: seq<T.Member>, j: nat)
    requires i < |keys| && j <= |members| && Keys(members)[j..] == KeptFrom(fields, keys, i)
    ensures Kept(fields, keys[i]) ==>
      && j < |members| && members[j].key == keys[i]
      && Keys(members)[j + 1..] == KeptFrom(fields, keys, i + 1)
    ensures !Kept(fields, keys[i]) ==> Keys(members)[j..] == KeptFrom(fields, keys, i + 1)
  {
    if Kept(fields, keys[i]) {
      assert Keys(members)[j..][0] == keys[i];
      assert Keys(members)[j + 1..] == Keys(members)[j..][1..];
    }
  }

  /** From key i on, the members from j on are still to be assigned. */
  lemma {:induction false} MembersComplete(
    h: Heap, ref: Ref, keys: seq<JsString>, i: nat, j: nat, seen: set<Ref>, above: map<Ref, T.Tree>, t: T.Tree)
    requires WellFormed(h) && ref in h && h[ref].Plain? && WellFormedObject(h, h[ref])
    requires Denotes(h, Object(ref), t) && Above(h, seen, above, t) && i <= |keys| && j <= |t.members|
    requires forall k :: k in keys ==> k in h[ref].fields
    requires StrictlySorted(keys) && Keys(t.members)[j..] == KeptFrom(h[ref].fields, keys, i)
    ensures NormalizedMembers(h, h[ref].fields, keys, i, seen + {ref}) == Ok(Remaining(t, keys, i, j))
    decreases t, 0, |keys| - i
  {
    var fields := h[ref].fields;
    if i == |keys| {
      assert |Keys(t.members)[j..]| == 0 && t.members[j..] == [];
    } else {
      RemainingStep(t, keys, i, j);
      NextKept(fields, keys, i, t.members, j);
      if fields[keys[i]] == Undefined {
        MembersComplete(h, ref, keys, i + 1, j, seen, above, t);
      } else if keys[i] == PROTO {
        HiddenComplete(h, ref, seen, above, t);
        MembersComplete(h, ref, keys, i + 1, j, seen, above, t);
        OneMemberNormalized(h, fields, keys, i, seen + {ref}, t.hidden.value, Remaining(t, keys, i + 1, j));
      } else {
        MemberComplete(h, ref, j, seen, above, t);
        MembersComplete(h, ref, keys, i + 1, j + 1, seen, above, t);
        OneMemberNormalized(h, fields, keys, i, seen + {ref}, t.members[j].value, Remaining(t, keys, i + 1, j + 1));
      }
    }
  }

  /** Normalising from no ancestors returns a tree exactly when the value stands for it. */
  lemma NormalizedIffDenotes(h: Heap, v: Value, t: T.Tree)
    requires WellFormed(h) && Within(h, v)
    ensures Normalized(h, v, {}) == Ok(t) <==> Denotes(h, v, t)
  {
    if Normalized(h, v, {}) == Ok(t) { Sound(h, v, {}, t); }
    if Denotes(h, v, t) { Complete(h, v, {}, map[], t); }
  }
}

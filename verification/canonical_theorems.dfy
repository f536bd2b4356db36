/** What canonicalJson promises: exact acceptance, deciding equality, stability. */
module CanonicalTheorems {
  import opened Prelude
  import opened JsText
  import T = JsonTrees
  import opened JsonEquality
  import opened CanonicalJson
  import opened CanonicalMeaning

  // -------------------------------------------------------- faults and paths

  /** The member reached by one step; undefined members are skipped, not entered. */
  function Child(h: Heap, v: Value, step: Step): Option<Value> {
    if !v.Object? || v.ref !in h then None
    else
      match (h[v.ref], step)
      case (Array(items), Element(i)) => if i < |items| then Some(items[i]) else None
      case (Plain(_, fields), Property(k)) =>
        if k in fields && fields[k] != Undefined then Some(fields[k]) else None
      case _ => None
  }

  function Follow(h: Heap, v: Value, path: seq<Step>): Option<Value>
    decreases |path|
  {
    if path == [] then Some(v)
    else
      var child := Child(h, v, path[0]);
      if child.Some? then Follow(h, child.value, path[1..]) else None
  }

  function LocalFault(h: Heap, v: Value): Option<Fault> {
    match v
    case Num(NonFinite) => Some(NonFiniteNumber)
    case Date(None) => Some(InvalidDate)
    case Undefined => Some(UnsupportedValue)
    case Unsupported => Some(UnsupportedValue)
    case Object(ref) => if ref in h && h[ref].NonPlain? then Some(NonPlainObject) else None
    case _ => None
  }

  /** The value at the end of the path is unsupported, or an object the path came through. */
  ghost predicate FaultAt(h: Heap, v: Value, f: Failure) {
    FaultBelow(h, v, {}, f)
  }

  ghost predicate FaultBelow(h: Heap, v: Value, seen: set<Ref>, f: Failure) {
    var end := Follow(h, v, f.path);
    end.Some? &&
    if f.fault == CircularValue then end.value.Object? && (end.value.ref in seen || Revisits(h, v, f.path))
    else LocalFault(h, end.value) == Some(f.fault)
  }

  ghost predicate Revisits(h: Heap, v: Value, path: seq<Step>) {
    exists n :: 0 <= n < |path| && Follow(h, v, path[..n]) == Follow(h, v, path)
  }

  // ------------------------------------------------ a reported fault is there

  lemma FaultUnder(h: Heap, v: Value, seen: set<Ref>, step: Step, f: Failure)
    requires v.Object? && Child(h, v, step).Some? && FaultBelow(h, Child(h, v, step).value, seen + {v.ref}, f)
    ensures FaultBelow(h, v, seen, f.Under(step))
  {
    var child := Child(h, v, step).value;
    var path := f.Under(step).path;
    assert path[1..] == f.path;
    if f.fault == CircularValue {
      var end := Follow(h, child, f.path).value;
      if end.ref == v.ref {
        assert path[..0] == [];
        assert Follow(h, v, path[..0]) == Follow(h, v, path);
      } else if end.ref !in seen {
        var n :| 0 <= n < |f.path| && Follow(h, child, f.path[..n]) == Follow(h, child, f.path);
        assert path[..n + 1][1..] == f.path[..n];
        assert Follow(h, v, path[..n + 1]) == Follow(h, v, path);
      }
    }
  }

  /** A failure names a path from the value to a fault of that kind. */
  lemma {:induction false} FailureIsThere(h: Heap, v: Value, seen: set<Ref>, f: Failure)
    requires WellFormed(h) && Within(h, v) && Normalized(h, v, seen) == Err(f)
    ensures FaultBelow(h, v, seen, f)
    decreases |h.Keys - seen|, 0
  {
    if v.Object? && v.ref !in seen {
      Shrinks(h, seen, v.ref);
      assert WellFormedObject(h, h[v.ref]);
      match h[v.ref]
      case Array(items) => ItemsFailure(h, v, 0, seen, f);
      case Plain(keys, fields) =>
        SortKeepsMembers(keys);
        MembersFailure(h, v, Sorting.Sort(Leq, keys), 0, seen, f);
      case NonPlain =>
    }
  }

  lemma {:induction false} ItemsFailure(h: Heap, v: Value, i: nat, seen: set<Ref>, f: Failure)
    requires WellFormed(h) && v.Object? && v.ref in h && v.ref !in seen
    requires h[v.ref].Array? && WellFormedObject(h, h[v.ref]) && i <= |h[v.ref].items|
    requires NormalizedItems(h, h[v.ref].items, i, seen + {v.ref}) == Err(f)
    ensures FaultBelow(h, v, seen, f)
    decreases |h.Keys - (seen + {v.ref})|, |h[v.ref].items| - i + 1
  {
    var items := h[v.ref].items;
    match Normalized(h, items[i], seen + {v.ref})
    case Err(g) =>
      FailureIsThere(h, items[i], seen + {v.ref}, g);
      FaultUnder(h, v, seen, Element(i), g);
    case Ok(_) => ItemsFailure(h, v, i + 1, seen, f);
  }

  lemma {:induction false} MembersFailure(h: Heap, v: Value, keys: seq<JsString>, i: nat, seen: set<Ref>, f: Failure)
    requires WellFormed(h) && v.Object? && v.ref in h && v.ref !in seen
    requires h[v.ref].Plain? && WellFormedObject(h, h[v.ref]) && i <= |keys|
    requires forall k :: k in keys ==> k in h[v.ref].fields
    requires NormalizedMembers(h, h[v.ref].fields, keys, i, seen + {v.ref}) == Err(f)
    ensures FaultBelow(h, v, seen, f)
    decreases |h.Keys - (seen + {v.ref})|, |keys| - i + 1
  {
    var fields := h[v.ref].fields;
    if fields[keys[i]] == Undefined {
      MembersFailure(h, v, keys, i + 1, seen, f);
    } else {
      match Normalized(h, fields[keys[i]], seen + {v.ref})
      case Err(g) =>
        FailureIsThere(h, fields[keys[i]], seen + {v.ref}, g);
        FaultUnder(h, v, seen, Property(keys[i]), g);
      case Ok(_) => MembersFailure(h, v, keys, i + 1, seen, f);
    }
  }

  // -------------------------------------------- what has a meaning has no fault

  lemma ChildDenotes(h: Heap, v: Value, t: T.Tree, step: Step) returns (u: T.Tree)
    requires WellFormed(h) && Denotes(h, v, t) && Child(h, v, step).Some?
    ensures Denotes(h, Child(h, v, step).value, u) && u < t
  {
    match h[v.ref]
    case Array(items) => u := t.items[step.index];
    case Plain(_, fields) =>
      if step.key == PROTO {
        u := t.hidden.value;
      } else {
        assert Kept(fields, step.key);
        var i :| 0 <= i < |t.members| && Keys(t.members)[i] == step.key;
        u := t.members[i].value;
      }
  }

  /** Along a path every value stands for a smaller tree. */
  lemma {:induction false} FollowDenotes(h: Heap, v: Value, t: T.Tree, path: seq<Step>) returns (u: T.Tree)
    requires WellFormed(h) && Denotes(h, v, t) && Follow(h, v, path).Some?
    ensures Denotes(h, Follow(h, v, path).value, u)
    ensures if path == [] then u == t else u < t
    decreases |path|
  {
    if path == [] {
      u := t;
    } else {
      var child := ChildDenotes(h, v, t, path[0]);
      u := FollowDenotes(h, Child(h, v, path[0]).value, child, path[1..]);
    }
  }

  lemma {:induction false} FollowConcat(h: Heap, v: Value, p: seq<Step>, q: seq<Step>)
    ensures Follow(h, v, p + q) == if Follow(h, v, p).Some? then Follow(h, Follow(h, v, p).value, q) else None
    decreases |p|
  {
    if p == [] {
      assert p + q == q;
    } else {
      var child := Child(h, v, p[0]);
      assert (p + q)[0] == p[0] && (p + q)[1..] == p[1..] + q;
      if child.Some? { FollowConcat(h, child.value, p[1..], q); }
    }
  }

  lemma FollowFurther(h: Heap, v: Value, path: seq<Step>, n: nat)
    requires n <= |path| && Follow(h, v, path).Some?
    ensures Follow(h, v, path[..n]).Some?
    ensures Follow(h, Follow(h, v, path[..n]).value, path[n..]) == Follow(h, v, path)
  {
    assert path == path[..n] + path[n..];
    FollowConcat(h, v, path[..n], path[n..]);
  }

  lemma NoFaultWhereDenoted(h: Heap, v: Value, t: T.Tree, f: Failure)
    requires WellFormed(h) && Denotes(h, v, t)
    ensures !FaultAt(h, v, f)
  {
    if FaultAt(h, v, f) {
      var end := Follow(h, v, f.path).value;
      var u := FollowDenotes(h, v, t, f.path);
      if f.fault == CircularValue {
        var n :| 0 <= n < |f.path| && Follow(h, v, f.path[..n]) == Follow(h, v, f.path);
        FollowFurther(h, v, f.path, n);
        var below := FollowDenotes(h, end, u, f.path[n..]);
        DenotesUnique(h, end, u, below);
      }
      assert false;
    }
  }

  /** Normalising fails exactly when a cycle or an unsupported value can be reached. */
  lemma FailsExactlyOnReachableFault(h: Heap, v: Value)
    requires WellFormed(h) && Within(h, v)
    ensures Normalized(h, v, {}).Err? <==> exists f :: FaultAt(h, v, f)
    ensures Normalized(h, v, {}).Err? ==> FaultAt(h, v, Normalized(h, v, {}).error)
  {
    match Normalized(h, v, {})
    case Err(f) =>
      FailureIsThere(h, v, {}, f);
      assert FaultAt(h, v, f);
    case Ok(t) =>
      Sound(h, v, {}, t);
      forall f ensures !FaultAt(h, v, f) { NoFaultWhereDenoted(h, v, t, f); }
  }

  // ------------------------------------------------- the text decides equality

  lemma {:induction false} DenotedIsCanonical(h: Heap, v: Value, t: T.Tree)
    requires Denotes(h, v, t)
    ensures Canonical(t)
    decreases t
  {
    if v.Object? {
      match h[v.ref]
      case Array(items) =>
        forall i | 0 <= i < |t.items| ensures Canonical(t.items[i]) { DenotedIsCanonical(h, items[i], t.items[i]); }
      case Plain(_, fields) =>
        forall i | 0 <= i < |t.members| ensures Canonical(t.members[i].value) {
          DenotedIsCanonical(h, fields[t.members[i].key], t.members[i].value);
        }
        if t.hidden.Some? { DenotedIsCanonical(h, fields[PROTO], t.hidden.value); }
    }
  }

  /** No object on any path from the value has a defined own member `__proto__`. */
  ghost predicate NoProtoReachable(h: Heap, v: Value) {
    forall path :: Follow(h, v, path + [Property(PROTO)]).None?
  }

  lemma FollowOne(h: Heap, v: Value, step: Step)
    ensures Follow(h, v, [step]) == Child(h, v, step)
  {
    var child, one := Child(h, v, step), [step];
    assert one[0] == step && one[1..] == [];
    if child.Some? { assert Follow(h, child.value, one[1..]) == child; }
  }

  lemma NoProtoBelow(h: Heap, v: Value, step: Step)
    requires NoProtoReachable(h, v) && Child(h, v, step).Some?
    ensures NoProtoReachable(h, Child(h, v, step).value)
  {
    forall path ensures Follow(h, Child(h, v, step).value, path + [Property(PROTO)]).None? {
      var longer := ([step] + path) + [Property(PROTO)];
      assert longer[1..] == path + [Property(PROTO)];
      assert Follow(h, v, longer).None?;
    }
  }

  lemma {:induction false} NoProtoNothingHidden(h: Heap, v: Value, t: T.Tree)
    requires Denotes(h, v, t) && NoProtoReachable(h, v)
    ensures NothingHidden(t)
    decreases t
  {
    if v.Object? {
      match h[v.ref]
      case Array(items) =>
        forall i | 0 <= i < |t.items| ensures NothingHidden(t.items[i]) {
          NoProtoBelow(h, v, Element(i));
          NoProtoNothingHidden(h, items[i], t.items[i]);
        }
      case Plain(_, fields) =>
        assert [] + [Property(PROTO)] == [Property(PROTO)];
        FollowOne(h, v, Property(PROTO));
        assert Child(h, v, Property(PROTO)).None?;
        forall i | 0 <= i < |t.members| ensures NothingHidden(t.members[i].value) {
          var k := t.members[i].key;
          assert Keys(t.members)[i] == k;
          NoProtoBelow(h, v, Property(k));
          NoProtoNothingHidden(h, fields[k], t.members[i].value);
        }
    }
  }

  /** Accepted values have equal texts exactly when their own members agree throughout. */
  lemma EqualTextIffSameOwnData(h1: Heap, v1: Value, t1: T.Tree, h2: Heap, v2: Value, t2: T.Tree)
    requires WellFormed(h1) && Within(h1, v1) && Denotes(h1, v1, t1)
    requires WellFormed(h2) && Within(h2, v2) && Denotes(h2, v2, t2)
    ensures CanonicalText(h1, v1) == CanonicalText(h2, v2) <==> T.SameData(t1, t2)
  {
    NormalizedIffDenotes(h1, v1, t1);
    NormalizedIffDenotes(h2, v2, t2);
    EqualTextIffSameData(t1, t2);
  }

  /**
   * Without a `__proto__` member, equal text means equal value: the two stand
   * for one tree, so they differ at most in key order, undefined members, -0
   * for 0, dates for their ISO strings and sharing.
   */
  lemma EqualTextIffSameValue(h1: Heap, v1: Value, h2: Heap, v2: Value)
    requires WellFormed(h1) && Within(h1, v1) && CanonicalText(h1, v1).Ok? && NoProtoReachable(h1, v1)
    requires WellFormed(h2) && Within(h2, v2) && CanonicalText(h2, v2).Ok? && NoProtoReachable(h2, v2)
    ensures CanonicalText(h1, v1) == CanonicalText(h2, v2)
       <==> exists t :: Denotes(h1, v1, t) && Denotes(h2, v2, t)
  {
    var t1, t2 := Normalized(h1, v1, {}).value, Normalized(h2, v2, {}).value;
    Sound(h1, v1, {}, t1);
    Sound(h2, v2, {}, t2);
    EqualTextIffSameOwnData(h1, v1, t1, h2, v2, t2);
    DenotedIsCanonical(h1, v1, t1);
    DenotedIsCanonical(h2, v2, t2);
    NoProtoNothingHidden(h1, v1, t1);
    NoProtoNothingHidden(h2, v2, t2);
    SameDataIsEquality(t1, t2);
    CommonTree(h1, v1, t1, h2, v2, t2);
  }

  lemma CommonTree(h1: Heap, v1: Value, t1: T.Tree, h2: Heap, v2: Value, t2: T.Tree)
    requires Denotes(h1, v1, t1) && Denotes(h2, v2, t2)
    ensures t1 == t2 <==> exists t :: Denotes(h1, v1, t) && Denotes(h2, v2, t)
  {
    if t1 == t2 { assert Denotes(h1, v1, t1) && Denotes(h2, v2, t1); }
    forall t | Denotes(h1, v1, t) && Denotes(h2, v2, t) ensures t1 == t2 {
      DenotesUnique(h1, v1, t, t1);
      DenotesUnique(h2, v2, t, t2);
    }
  }

  /** `__proto__`, unit by unit. */
  const NAME: JsString := [95, 95, 112, 114, 111, 116, 111, 95, 95]

  /** An empty object and one whose only own member is `__proto__`. */
  const PROTO_HEAP: Heap := map[0 := Plain([], map[]), 1 := Plain([NAME], map[NAME := Null])]

  lemma ProtoHeapDenotes()
    ensures WellFormed(PROTO_HEAP)
    ensures Denotes(PROTO_HEAP, Object(0), T.Object([], None))
    ensures Denotes(PROTO_HEAP, Object(1), T.Object([], Some(T.Null)))
  {
    assert NAME == PROTO;
    assert PROTO_HEAP[0] == Plain([], map[]) && PROTO_HEAP[1] == Plain([PROTO], map[PROTO := Null]);
    assert WellFormedObject(PROTO_HEAP, PROTO_HEAP[0]) && WellFormedObject(PROTO_HEAP, PROTO_HEAP[1]);
    assert Keys([]) == [];
    assert Denotes(PROTO_HEAP, Null, T.Null);
  }

  /** With a `__proto__` member equal text does not mean equal value. */
  lemma ProtoMemberCollides()
    ensures WellFormed(PROTO_HEAP)
    ensures CanonicalText(PROTO_HEAP, Object(0)).Ok?
    ensures CanonicalText(PROTO_HEAP, Object(0)) == CanonicalText(PROTO_HEAP, Object(1))
    ensures !exists t :: Denotes(PROTO_HEAP, Object(0), t) && Denotes(PROTO_HEAP, Object(1), t)
  {
    var t1, t2 := T.Object([], None), T.Object([], Some(T.Null));
    ProtoHeapDenotes();
    assert T.SameData(t1, t2);
    EqualTextIffSameOwnData(PROTO_HEAP, Object(0), t1, PROTO_HEAP, Object(1), t2);
    NormalizedIffDenotes(PROTO_HEAP, Object(0), t1);
    forall t ensures !(Denotes(PROTO_HEAP, Object(0), t) && Denotes(PROTO_HEAP, Object(1), t)) {
      if Denotes(PROTO_HEAP, Object(0), t) && Denotes(PROTO_HEAP, Object(1), t) {
        DenotesUnique(PROTO_HEAP, Object(0), t, t1);
      }
    }
  }

  // ------------------------------------------------------- normalising twice

  predicate IsContainer(t: T.Tree) { t.Array? || t.Object? }

  /**
   * A heap holds the returned data as fresh objects. One whose prototype was
   * replaced by a container is no longer plain.
   */
  ghost predicate Holds(h: Heap, v: Value, t: T.Tree)
    decreases t
  {
    match t
    case Null => v == Null
    case Bool(b) => v == Bool(b)
    case Number(text) => v == Num(Finite(text))
    case String(s) => v == Str(s)
    case Array(items) =>
      && v.Object? && v.ref in h && h[v.ref].Array? && |h[v.ref].items| == |items|
      && forall i | 0 <= i < |items| :: Holds(h, h[v.ref].items[i], items[i])
    case Object(members, hidden) =>
      && v.Object? && v.ref in h
      && if hidden.Some? && IsContainer(hidden.value) then h[v.ref].NonPlain? else
           && h[v.ref].Plain?
           && (forall k :: k in Keys(members) <==> k in h[v.ref].fields)
           && forall i | 0 <= i < |members| ::
                members[i].key in h[v.ref].fields && Holds(h, h[v.ref].fields[members[i].key], members[i].value)
  }

  /** No own member anywhere belongs to an object whose prototype was replaced. */
  ghost predicate PlainAgain(t: T.Tree) {
    match t
    case Array(items) => forall i | 0 <= i < |items| :: PlainAgain(items[i])
    case Object(members, hidden) =>
      !(hidden.Some? && IsContainer(hidden.value)) && forall i | 0 <= i < |members| :: PlainAgain(members[i].value)
    case _ => true
  }

  /** The data without what was hidden. */
  function Visible(t: T.Tree): T.Tree {
    match t
    case Array(items) => T.Array(seq(|items|, i requires 0 <= i < |items| => Visible(items[i])))
    case Object(members, _) =>
      T.Object(seq(|members|, i requires 0 <= i < |members| => T.Member(members[i].key, Visible(members[i].value))), None)
    case _ => t
  }

  /** Own keys of normalised data never include `__proto__`. */
  ghost predicate OwnKeysOnly(t: T.Tree) {
    match t
    case Array(items) => forall i | 0 <= i < |items| :: OwnKeysOnly(items[i])
    case Object(members, hidden) =>
      && PROTO !in Keys(members)
      && (forall i | 0 <= i < |members| :: OwnKeysOnly(members[i].value))
      && (hidden.Some? ==> OwnKeysOnly(hidden.value))
    case _ => true
  }

  lemma {:induction false} DenotedOwnKeys(h: Heap, v: Value, t: T.Tree)
    requires Denotes(h, v, t)
    ensures OwnKeysOnly(t)
    decreases t
  {
    if v.Object? {
      match h[v.ref]
      case Array(items) =>
        forall i | 0 <= i < |t.items| ensures OwnKeysOnly(t.items[i]) { DenotedOwnKeys(h, items[i], t.items[i]); }
      case Plain(_, fields) =>
        assert !Kept(fields, PROTO);
        forall i | 0 <= i < |t.members| ensures OwnKeysOnly(t.members[i].value) {
          DenotedOwnKeys(h, fields[t.members[i].key], t.members[i].value);
        }
        if t.hidden.Some? { DenotedOwnKeys(h, fields[PROTO], t.hidden.value); }
    }
  }

  lemma HeldIsDefined(h: Heap, v: Value, t: T.Tree)
    requires Holds(h, v, t)
    ensures v != Undefined
  {
  }

  lemma {:induction false} HeldPlainDenotes(h: Heap, v: Value, t: T.Tree)
    requires Holds(h, v, t) && Canonical(t) && OwnKeysOnly(t) && PlainAgain(t)
    ensures Denotes(h, v, Visible(t))
    decreases t
  {
    match t
    case Array(items) =>
      forall i | 0 <= i < |items| ensures Denotes(h, h[v.ref].items[i], Visible(t).items[i]) {
        HeldPlainDenotes(h, h[v.ref].items[i], items[i]);
      }
    case Object(members, _) =>
      var fields, shown := h[v.ref].fields, Visible(t).members;
      assert Keys(shown) == Keys(members);
      forall i | 0 <= i < |members| ensures shown[i].key in fields && Denotes(h, fields[shown[i].key], shown[i].value) {
        HeldPlainDenotes(h, fields[members[i].key], members[i].value);
      }
      forall k ensures k in Keys(shown) <==> Kept(fields, k) {
        if k in Keys(members) {
          var i :| 0 <= i < |members| && Keys(members)[i] == k;
          HeldIsDefined(h, fields[k], members[i].value);
        }
      }
    case _ =>
  }

  lemma {:induction false} HeldDenotedIsPlain(h: Heap, v: Value, t: T.Tree, u: T.Tree)
    requires Holds(h, v, t) && OwnKeysOnly(t) && Denotes(h, v, u)
    ensures PlainAgain(t)
    decreases t
  {
    match t
    case Array(items) =>
      forall i | 0 <= i < |items| ensures PlainAgain(items[i]) {
        HeldDenotedIsPlain(h, h[v.ref].items[i], items[i], u.items[i]);
      }
    case Object(members, _) =>
      var fields := h[v.ref].fields;
      forall i | 0 <= i < |members| ensures PlainAgain(members[i].value) {
        var k := members[i].key;
        assert Keys(members)[i] == k;
        HeldIsDefined(h, fields[k], members[i].value);
        assert k in Keys(u.members);
        var j :| 0 <= j < |u.members| && Keys(u.members)[j] == k;
        HeldDenotedIsPlain(h, fields[k], members[i].value, u.members[j].value);
      }
    case _ =>
  }

  lemma {:induction false} VisibleNothingHidden(t: T.Tree)
    ensures NothingHidden(Visible(t)) && (NothingHidden(t) ==> Visible(t) == t)
  {
    match t
    case Array(items) =>
      forall i | 0 <= i < |items|
        ensures NothingHidden(Visible(items[i])) && (NothingHidden(items[i]) ==> Visible(items[i]) == items[i])
      {
        VisibleNothingHidden(items[i]);
      }
    case Object(members, _) =>
      forall i | 0 <= i < |members|
        ensures NothingHidden(Visible(members[i].value))
        ensures NothingHidden(members[i].value) ==> Visible(members[i].value) == members[i].value
      {
        VisibleNothingHidden(members[i].value);
      }
    case _ =>
  }

  lemma {:induction false} VisibleIsCanonical(t: T.Tree)
    requires Canonical(t)
    ensures Canonical(Visible(t))
  {
    match t
    case Array(items) =>
      forall i | 0 <= i < |items| ensures Canonical(Visible(items[i])) { VisibleIsCanonical(items[i]); }
    case Object(members, _) =>
      assert Keys(Visible(t).members) == Keys(members);
      forall i | 0 <= i < |members| ensures Canonical(Visible(members[i].value)) {
        VisibleIsCanonical(members[i].value);
      }
    case _ =>
  }

  lemma {:induction false} VisibleIsSameData(t: T.Tree)
    requires Canonical(t)
    ensures T.SameData(t, Visible(t))
  {
    match t
    case Array(items) =>
      forall i | 0 <= i < |items| ensures T.SameData(items[i], Visible(items[i])) { VisibleIsSameData(items[i]); }
    case Object(members, _) =>
      assert Keys(Visible(t).members) == Keys(members);
      forall i | 0 <= i < |members| ensures T.SameData(members[i].value, Visible(t).members[i].value) {
        VisibleIsSameData(members[i].value);
      }
      SameMembersSameData(t, Visible(t));
    case _ =>
  }

  /** No `__proto__` member that holds an object is reached through own members alone. */
  ghost predicate NoContainerProto(h: Heap, v: Value) {
    forall path, r | Property(PROTO) !in path :: Follow(h, v, path + [Property(PROTO)]) != Some(Object(r))
  }

  lemma NoContainerBelow(h: Heap, v: Value, step: Step)
    requires NoContainerProto(h, v) && step != Property(PROTO) && Child(h, v, step).Some?
    ensures NoContainerProto(h, Child(h, v, step).value)
  {
    var child := Child(h, v, step).value;
    forall path, r | Property(PROTO) !in path ensures Follow(h, child, path + [Property(PROTO)]) != Some(Object(r)) {
      var longer := ([step] + path) + [Property(PROTO)];
      assert longer[1..] == path + [Property(PROTO)];
      assert Property(PROTO) !in [step] + path;
      assert Follow(h, v, longer) == Follow(h, child, longer[1..]);
    }
  }

  lemma DenotesContainer(h: Heap, v: Value, t: T.Tree)
    requires Denotes(h, v, t)
    ensures IsContainer(t) <==> v.Object?
  {
  }

  lemma {:induction false} NoContainerIsPlain(h: Heap, v: Value, t: T.Tree)
    requires Denotes(h, v, t) && NoContainerProto(h, v)
    ensures PlainAgain(t)
    decreases t
  {
    if v.Object? {
      match h[v.ref]
      case Array(items) =>
        forall i | 0 <= i < |t.items| ensures PlainAgain(t.items[i]) {
          NoContainerBelow(h, v, Element(i));
          NoContainerIsPlain(h, items[i], t.items[i]);
        }
      case Plain(_, fields) =>
        NoContainerHere(h, v, t);
        forall i | 0 <= i < |t.members| ensures PlainAgain(t.members[i].value) {
          var k := t.members[i].key;
          assert Keys(t.members)[i] == k;
          assert Kept(fields, k);
          NoContainerBelow(h, v, Property(k));
          NoContainerIsPlain(h, fields[k], t.members[i].value);
        }
    }
  }

  lemma NoContainerHere(h: Heap, v: Value, t: T.Tree)
    requires Denotes(h, v, t) && t.Object? && NoContainerProto(h, v)
    ensures !(t.hidden.Some? && IsContainer(t.hidden.value))
  {
    if t.hidden.Some? {
      var own: seq<Step> := [];
      var proto := h[v.ref].fields[PROTO];
      DenotesContainer(h, proto, t.hidden.value);
      FollowOne(h, v, Property(PROTO));
      assert own + [Property(PROTO)] == [Property(PROTO)];
      forall r ensures proto != Object(r) {
        assert Follow(h, v, own + [Property(PROTO)]) != Some(Object(r));
      }
    }
  }

  /** Through own members the data reached stays plain. */
  lemma PlainBelow(h: Heap, v: Value, t: T.Tree, step: Step) returns (u: T.Tree)
    requires WellFormed(h) && Denotes(h, v, t) && PlainAgain(t) && Child(h, v, step).Some? && step != Property(PROTO)
    ensures Denotes(h, Child(h, v, step).value, u) && PlainAgain(u)
  {
    match h[v.ref]
    case Array(items) => u := t.items[step.index];
    case Plain(_, fields) =>
      assert Kept(fields, step.key);
      var i :| 0 <= i < |t.members| && Keys(t.members)[i] == step.key;
      u := t.members[i].value;
  }

  lemma {:induction false} PlainHasNoContainer(h: Heap, v: Value, t: T.Tree, path: seq<Step>, r: Ref)
    requires WellFormed(h) && Denotes(h, v, t) && PlainAgain(t) && Property(PROTO) !in path
    ensures Follow(h, v, path + [Property(PROTO)]) != Some(Object(r))
    decreases |path|
  {
    var longer := path + [Property(PROTO)];
    if path == [] {
      FollowOne(h, v, Property(PROTO));
      assert longer == [Property(PROTO)];
      if Child(h, v, Property(PROTO)).Some? {
        DenotesContainer(h, h[v.ref].fields[PROTO], t.hidden.value);
      }
    } else {
      assert longer[0] == path[0] && path[0] in path && longer[1..] == path[1..] + [Property(PROTO)];
      if Child(h, v, path[0]).Some? {
        var u := PlainBelow(h, v, t, path[0]);
        PlainHasNoContainer(h, Child(h, v, path[0]).value, u, path[1..], r);
      }
    }
  }

  /** The normal form is plain exactly when no own path of the input leads to a container under `__proto__`. */
  lemma PlainIffNoContainerProto(h: Heap, v: Value, t: T.Tree)
    requires WellFormed(h) && Denotes(h, v, t)
    ensures PlainAgain(t) <==> NoContainerProto(h, v)
  {
    if PlainAgain(t) {
      forall path, r | Property(PROTO) !in path ensures Follow(h, v, path + [Property(PROTO)]) != Some(Object(r)) {
        PlainHasNoContainer(h, v, t, path, r);
      }
    }
    if NoContainerProto(h, v) { NoContainerIsPlain(h, v, t); }
  }

  /** Without its hidden parts the normal form is held by the same objects, if they are plain. */
  lemma HeldNormalForm(h2: Heap, w: Value, t: T.Tree)
    requires WellFormed(h2) && Within(h2, w) && Holds(h2, w, t) && Canonical(t) && OwnKeysOnly(t)
    ensures Normalized(h2, w, {}).Ok? <==> PlainAgain(t)
    ensures PlainAgain(t) ==> Normalized(h2, w, {}) == Ok(Visible(t))
  {
    if PlainAgain(t) {
      HeldPlainDenotes(h2, w, t);
      NormalizedIffDenotes(h2, w, Visible(t));
    } else {
      match Normalized(h2, w, {})
      case Ok(u) =>
        Sound(h2, w, {}, u);
        HeldDenotedIsPlain(h2, w, t, u);
      case Err(_) =>
    }
  }

  /**
   * Normalising what was returned: it is accepted exactly when no own path of
   * the input leads to a container under `__proto__`, then as the same visible
   * data, and exactly then with the same text.
   */
  lemma NormalizingTwice(h: Heap, v: Value, t: T.Tree, h2: Heap, w: Value)
    requires WellFormed(h) && Within(h, v) && Normalized(h, v, {}) == Ok(t)
    requires WellFormed(h2) && Within(h2, w) && Holds(h2, w, t)
    ensures Normalized(h2, w, {}).Ok? <==> NoContainerProto(h, v)
    ensures NoContainerProto(h, v) ==> Normalized(h2, w, {}) == Ok(Visible(t))
    ensures CanonicalText(h2, w) == CanonicalText(h, v) <==> NoContainerProto(h, v)
  {
    Sound(h, v, {}, t);
    DenotedIsCanonical(h, v, t);
    DenotedOwnKeys(h, v, t);
    PlainIffNoContainerProto(h, v, t);
    HeldNormalForm(h2, w, t);
    VisibleIsSameData(t);
    EqualTextIffSameData(t, Visible(t));
  }

  /** A `__proto__` member that holds an empty object. */
  const CONTAINER_HEAP: Heap := map[0 := Plain([], map[]), 1 := Plain([PROTO], map[PROTO := Object(0)])]

  /** With such a member the normal form is not accepted again. */
  lemma ProtoContainerIsRefusedAgain(h2: Heap, w: Value)
    requires WellFormed(h2) && Within(h2, w) && Holds(h2, w, T.Object([], Some(T.Object([], None))))
    ensures WellFormed(CONTAINER_HEAP)
    ensures Normalized(CONTAINER_HEAP, Object(1), {}) == Ok(T.Object([], Some(T.Object([], None))))
    ensures Normalized(h2, w, {}).Err?
  {
    var inner, t := T.Object([], None), T.Object([], Some(T.Object([], None)));
    assert CONTAINER_HEAP[0] == Plain([], map[]) && CONTAINER_HEAP[1] == Plain([PROTO], map[PROTO := Object(0)]);
    assert WellFormedObject(CONTAINER_HEAP, CONTAINER_HEAP[0]) && WellFormedObject(CONTAINER_HEAP, CONTAINER_HEAP[1]);
    assert Keys([]) == [];
    assert Denotes(CONTAINER_HEAP, Object(0), inner);
    assert Denotes(CONTAINER_HEAP, Object(1), t);
    NormalizedIffDenotes(CONTAINER_HEAP, Object(1), t);
    NormalizingTwice(CONTAINER_HEAP, Object(1), t, h2, w);
    PlainIffNoContainerProto(CONTAINER_HEAP, Object(1), t);
  }

  /** Without a `__proto__` member, normalising again changes nothing. */
  lemma NormalizingIsIdempotent(h: Heap, v: Value, t: T.Tree, h2: Heap, w: Value)
    requires WellFormed(h) && Within(h, v) && Normalized(h, v, {}) == Ok(t) && NoProtoReachable(h, v)
    requires WellFormed(h2) && Within(h2, w) && Holds(h2, w, t)
    ensures Normalized(h2, w, {}) == Ok(t) && CanonicalText(h2, w) == CanonicalText(h, v)
  {
    Sound(h, v, {}, t);
    NoProtoNothingHidden(h, v, t);
    VisibleNothingHidden(t);
    NothingHiddenIsPlain(t);
    PlainIffNoContainerProto(h, v, t);
    NormalizingTwice(h, v, t, h2, w);
  }

  lemma {:induction false} NothingHiddenIsPlain(t: T.Tree)
    requires NothingHidden(t)
    ensures PlainAgain(t)
  {
    match t
    case Array(items) => forall i | 0 <= i < |items| ensures PlainAgain(items[i]) { NothingHiddenIsPlain(items[i]); }
    case Object(members, _) =>
      forall i | 0 <= i < |members| ensures PlainAgain(members[i].value) { NothingHiddenIsPlain(members[i].value); }
    case _ =>
  }

  // -------------------------------------------- when the text decides equality

  lemma NothingHiddenBelow(h: Heap, v: Value, t: T.Tree, step: Step) returns (u: T.Tree)
    requires WellFormed(h) && Denotes(h, v, t) && NothingHidden(t) && Child(h, v, step).Some?
    ensures step != Property(PROTO) && Denotes(h, Child(h, v, step).value, u) && NothingHidden(u)
  {
    match h[v.ref]
    case Array(items) => u := t.items[step.index];
    case Plain(_, fields) =>
      assert step.key != PROTO;
      assert Kept(fields, step.key);
      var i :| 0 <= i < |t.members| && Keys(t.members)[i] == step.key;
      u := t.members[i].value;
  }

  lemma {:induction false} NothingHiddenNoProtoOn(h: Heap, v: Value, t: T.Tree, path: seq<Step>)
    requires WellFormed(h) && Denotes(h, v, t) && NothingHidden(t)
    ensures Follow(h, v, path + [Property(PROTO)]).None?
    decreases |path|
  {
    var longer := path + [Property(PROTO)];
    if Child(h, v, longer[0]).Some? {
      var u := NothingHiddenBelow(h, v, t, longer[0]);
      assert path != [] && longer[1..] == path[1..] + [Property(PROTO)];
      NothingHiddenNoProtoOn(h, Child(h, v, longer[0]).value, u, path[1..]);
    }
  }

  /** Nothing is hidden in what a value stands for exactly when no `__proto__` member can be reached. */
  lemma NothingHiddenIffNoProto(h: Heap, v: Value, t: T.Tree)
    requires WellFormed(h) && Denotes(h, v, t)
    ensures NothingHidden(t) <==> NoProtoReachable(h, v)
  {
    if NothingHidden(t) {
      forall path ensures Follow(h, v, path + [Property(PROTO)]).None? { NothingHiddenNoProtoOn(h, v, t, path); }
    }
    if NoProtoReachable(h, v) { NoProtoNothingHidden(h, v, t); }
  }

  /**
   * The text of a value singles out its normal form among those with nothing
   * hidden exactly when the value reaches no `__proto__` member.
   */
  lemma TextDecidesExactlyWithoutProto(h: Heap, v: Value, t: T.Tree)
    requires WellFormed(h) && Denotes(h, v, t)
    ensures NoProtoReachable(h, v)
       <==> forall u :: Canonical(u) && NothingHidden(u) && T.Print(u) == T.Print(t) ==> u == t
  {
    DenotedIsCanonical(h, v, t);
    NothingHiddenIffNoProto(h, v, t);
    if NothingHidden(t) {
      forall u | Canonical(u) && NothingHidden(u) && T.Print(u) == T.Print(t) ensures u == t {
        EqualTextIffSameData(u, t);
        SameDataIsEquality(u, t);
      }
    } else {
      VisibleIsCanonical(t);
      VisibleIsSameData(t);
      VisibleNothingHidden(t);
      EqualTextIffSameData(t, Visible(t));
    }
  }
}

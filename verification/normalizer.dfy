/** `normalize` as it runs: one mutable set of ancestors, restored on every exit. */
module Normalizers {
  import opened Prelude
  import opened JsText
  import opened Sorting
  import T = JsonTrees
  import opened CanonicalJson
  import CanonicalMeaning
  import R = JsonReader

  /** The path in the TypeError continues the path the call was given. */
  function Located<A>(path: seq<Step>, r: Result<A, Failure>): Result<A, Failure> {
    match r case Ok(a) => Ok(a) case Err(f) => Err(Failure(f.fault, path + f.path))
  }

  function After(done: seq<T.Tree>, r: Result<seq<T.Tree>, Failure>): Result<seq<T.Tree>, Failure> {
    match r case Ok(ts) => Ok(done + ts) case Err(f) => Err(f)
  }

  function Extend(done: Assigned, r: Result<Assigned, Failure>): Result<Assigned, Failure> {
    match r
    case Ok(a) => Ok(Assigned(done.members + a.members, if a.hidden.Some? then a.hidden else done.hidden))
    case Err(f) => Err(f)
  }

  class Normalizer {
    const heap: Heap
    var seen: set<Ref>

    constructor (heap: Heap)
      ensures this.heap == heap && seen == {}
    {
      this.heap := heap;
      seen := {};
    }

    method Normalize(value: Value, path: seq<Step>) returns (r: Result<T.Tree, Failure>)
      requires WellFormed(heap) && Within(heap, value)
      modifies this
      ensures seen == old(seen)
      ensures r == Located(path, Normalized(heap, value, old(seen)))
      decreases |heap.Keys - seen|, 0
    {
      assert path + [] == path;
      match value
      case Null => return Ok(T.Null);
      case Str(s) => return Ok(T.String(s));
      case Bool(b) => return Ok(T.Bool(b));
      case Num(NonFinite) => return Err(Failure(NonFiniteNumber, path));
      case Num(NegativeZero) => return Ok(T.Number(ZERO));
      case Num(Finite(text)) => return Ok(T.Number(text));
      case Date(None) => return Err(Failure(InvalidDate, path));
      case Date(Some(iso)) => return Ok(T.String(iso));
      case Undefined => return Err(Failure(UnsupportedValue, path));
      case Unsupported => return Err(Failure(UnsupportedValue, path));
      case Object(ref) =>
        if ref in seen { return Err(Failure(CircularValue, path)); }
        ghost var ancestors := seen;
        Shrinks(heap, seen, ref);
        assert WellFormedObject(heap, heap[ref]);
        seen := seen + {ref};
        match heap[ref] {
          case Array(items) => r := NormalizeItems(items, path);
          case NonPlain => r := Err(Failure(NonPlainObject, path));
          case Plain(keys, fields) =>
            SortKeepsMembers(keys);
            r := NormalizeMembers(Sort(Leq, keys), fields, path);
        }
        seen := seen - {ref};
        assert seen == ancestors;
    }

    /** `value.map((entry, index) => normalize(entry, seen, …))` */
    method NormalizeItems(items: seq<Value>, path: seq<Step>) returns (r: Result<T.Tree, Failure>)
      requires WellFormed(heap) && forall n :: 0 <= n < |items| ==> Within(heap, items[n])
      modifies this
      ensures seen == old(seen)
      ensures r == Located(path, AsArray(NormalizedItems(heap, items, 0, old(seen))))
      decreases |heap.Keys - seen|, |items| + 1
    {
      var output: seq<T.Tree> := [];
      var i := 0;
      ghost var whole := NormalizedItems(heap, items, 0, seen);
      AfterNothing(whole);
      while i < |items|
        invariant i <= |items| && seen == old(seen)
        invariant whole == After(output, NormalizedItems(heap, items, i, seen))
      {
        var entry := Normalize(items[i], path + [Element(i)]);
        match entry
        case Err(f) =>
          LocateUnder(path, Element(i), Normalized(heap, items[i], seen));
          return Err(f);
        case Ok(t) =>
          Regrouped(output, t, NormalizedItems(heap, items, i + 1, seen));
          output := output + [t];
          i := i + 1;
      }
      assert output + [] == output;
      return Ok(T.Array(output));
    }

    /** The loop over the sorted keys of a plain object. */
    method NormalizeMembers(keys: seq<JsString>, fields: map<JsString, Value>, path: seq<Step>)
      returns (r: Result<T.Tree, Failure>)
      requires WellFormed(heap)
      requires forall k :: k in keys ==> k in fields && Within(heap, fields[k])
      modifies this
      ensures seen == old(seen)
      ensures r == Located(path, AsObject(NormalizedMembers(heap, fields, keys, 0, old(seen))))
      decreases |heap.Keys - seen|, |keys| + 1
    {
      var output := Assigned([], None);
      var i := 0;
      ghost var whole := NormalizedMembers(heap, fields, keys, 0, seen);
      ExtendNothing(whole);
      while i < |keys|
        invariant i <= |keys| && seen == old(seen)
        invariant whole == Extend(output, NormalizedMembers(heap, fields, keys, i, seen))
      {
        MemberStep(heap, fields, keys, i, seen, output);
        if fields[keys[i]] != Undefined {
          var member := Normalize(fields[keys[i]], path + [Property(keys[i])]);
          match member
          case Err(f) =>
            LocateUnder(path, Property(keys[i]), Normalized(heap, fields[keys[i]], seen));
            return Err(f);
          case Ok(t) =>
            output := Put(output, keys[i], t);
        }
        i := i + 1;
      }
      assert output.members + [] == output.members;
      return Ok(T.Object(output.members, output.hidden));
    }
  }

  /** `output[key] = t`. */
  function Put(output: Assigned, key: JsString, t: T.Tree): Assigned {
    if key == PROTO then output.(hidden := Some(t)) else output.(members := output.members + [T.Member(key, t)])
  }

  lemma LocateUnder(path: seq<Step>, step: Step, r: Result<T.Tree, Failure>)
    requires r.Err?
    ensures Located(path + [step], r).error == Failure(r.error.fault, path + r.error.Under(step).path)
  {
    assert (path + [step]) + r.error.path == path + ([step] + r.error.path);
  }

  lemma AfterNothing(r: Result<seq<T.Tree>, Failure>)
    ensures After([], r) == r
  {
    if r.Ok? { assert [] + r.value == r.value; }
  }

  lemma ExtendNothing(r: Result<Assigned, Failure>)
    ensures Extend(Assigned([], None), r) == r
  {
    if r.Ok? { assert [] + r.value.members == r.value.members; }
  }

  lemma Regrouped(done: seq<T.Tree>, t: T.Tree, rest: Result<seq<T.Tree>, Failure>)
    ensures rest.Ok? ==> After(done + [t], rest) == After(done, Ok([t] + rest.value))
  {
    if rest.Ok? { assert (done + [t]) + rest.value == done + ([t] + rest.value); }
  }

  /** One round of the loop over the keys. */
  lemma MemberStep(
    h: Heap, fields: map<JsString, Value>, keys: seq<JsString>, i: nat, seen: set<Ref>, output: Assigned)
    requires WellFormed(h) && i < |keys|
    requires forall k :: k in keys ==> k in fields && Within(h, fields[k])
    ensures var here, next := NormalizedMembers(h, fields, keys, i, seen), NormalizedMembers(h, fields, keys, i + 1, seen);
            if fields[keys[i]] == Undefined then here == next else
              match Normalized(h, fields[keys[i]], seen)
              case Err(f) => Extend(output, here) == Err(f.Under(Property(keys[i])))
              case Ok(t) => Extend(output, here) == Extend(Put(output, keys[i], t), next)
  {
    if fields[keys[i]] != Undefined && Normalized(h, fields[keys[i]], seen).Ok? {
      var t := Normalized(h, fields[keys[i]], seen).value;
      Reassigned(output, keys[i], t, NormalizedMembers(h, fields, keys, i + 1, seen));
    }
  }

  lemma Reassigned(done: Assigned, key: JsString, t: T.Tree, rest: Result<Assigned, Failure>)
    ensures rest.Ok? ==>
              Extend(Put(done, key, t), rest) == Extend(done, Ok(Assign(key, t, rest.value)))
  {
    if rest.Ok? && key != PROTO {
      var m := [T.Member(key, t)];
      assert (done.members + m) + rest.value.members == done.members + (m + rest.value.members);
    }
  }

  /**
   * `canonicalJson(value)`: a fresh ancestor set, then the text. Read as RFC 8259
   * says, the text is the data that the value stands for.
   */
  method Canonicalize(heap: Heap, value: Value) returns (r: Result<JsString, Failure>)
    requires WellFormed(heap) && Within(heap, value)
    ensures r == CanonicalText(heap, value)
    ensures r.Ok? <==> exists t :: Denotes(heap, value, t)
    ensures forall t :: r.Ok? && Denotes(heap, value, t) ==> R.Read(r.value) == Some(R.Data(t))
  {
    var normalizer := new Normalizer(heap);
    var tree := normalizer.Normalize(value, []);
    AcceptedReads(heap, value);
    match tree
    case Ok(t) => return Ok(T.Print(t));
    case Err(f) =>
      assert forall path: seq<Step> :: [] + path == path;
      return Err(f);
  }

  lemma AcceptedReads(heap: Heap, value: Value)
    requires WellFormed(heap) && Within(heap, value)
    ensures CanonicalText(heap, value).Ok? <==> exists t :: Denotes(heap, value, t)
    ensures forall t :: Denotes(heap, value, t) ==>
              CanonicalText(heap, value).Ok? && R.Read(CanonicalText(heap, value).value) == Some(R.Data(t))
  {
    match Normalized(heap, value, {}) {
      case Ok(t) => CanonicalMeaning.NormalizedIffDenotes(heap, value, t);
      case Err(_) =>
    }
    forall t | Denotes(heap, value, t)
      ensures CanonicalText(heap, value).Ok? && R.Read(CanonicalText(heap, value).value) == Some(R.Data(t))
    {
      CanonicalMeaning.NormalizedIffDenotes(heap, value, t);
      R.ReadUndoesPrint(t);
    }
  }
}

/** Two values print the same JSON text exactly when they are the same data. */
module JsonEquality {
  import opened Prelude
  import opened JsText
  import opened Sorting
  import opened JsonText
  import opened JsonTrees

  // ------------------------------------------- equal text means equal data

  /** What may follow a value inside a larger text. */
  predicate Delimited(x: JsString) {
    x == [] || x[0] == COMMA || x[0] == CLOSE_ARRAY || x[0] == CLOSE_OBJECT
  }

  /** The first unit of a printed value. */
  function Head(t: Tree): CodeUnit {
    match t
    case Null => 110
    case Bool(b) => if b then 116 else 102
    case Number(s) => s[0]
    case String(_) => QUOTE
    case Array(_) => OPEN_ARRAY
    case Object(_, _) => OPEN_OBJECT
  }

  lemma PrintHead(t: Tree)
    ensures Print(t) != [] && Print(t)[0] == Head(t)
    ensures Head(t) != CLOSE_ARRAY
  {
    assert Text("null")[0] == 110;
    assert Text("true")[0] == 116;
    assert Text("false")[0] == 102;
  }

  lemma SameShape(a: Tree, b: Tree, x: JsString, y: JsString)
    requires Print(a) + x == Print(b) + y
    ensures Head(a) == Head(b)
    ensures a.Null? == b.Null? && a.Bool? == b.Bool? && a.Number? == b.Number? && a.String? == b.String?
    ensures a.Array? == b.Array? && a.Object? == b.Object?
  {
    PrintHead(a);
    PrintHead(b);
    assert (Print(a) + x)[0] == Head(a) && (Print(b) + y)[0] == Head(b);
  }

  lemma NumberPrefix(a: NumberText, b: NumberText, x: JsString, y: JsString)
    requires a + x == b + y && Delimited(x) && Delimited(y)
    ensures a == b && x == y
  {
    var text := a + x;
    assert forall i :: 0 <= i < |a| ==> text[i] == a[i] && a[i] in a && IsNumberUnit(text[i]);
    assert forall i :: 0 <= i < |b| ==> text[i] == b[i] && b[i] in b && IsNumberUnit(text[i]);
    assert x != [] ==> text[|a|] == x[0] && !IsNumberUnit(text[|a|]);
    assert y != [] ==> text[|b|] == y[0] && !IsNumberUnit(text[|b|]);
    CutAt(a, x, b, y);
  }

  /** A value can be read back from the front of any text that delimits it. */
  lemma {:induction false} PrintPrefix(a: Tree, b: Tree, x: JsString, y: JsString)
    requires Print(a) + x == Print(b) + y && Delimited(x) && Delimited(y)
    ensures SameData(a, b) && x == y
    decreases a, 1, 0
  {
    SameShape(a, b, x, y);
    match a
    case Null => CutAt(Print(a), x, Print(b), y);
    case Bool(_) => CutAt(Print(a), x, Print(b), y);
    case Number(s) => NumberPrefix(s, b.text, x, y);
    case String(s) => QuotePrefix(s, b.units, x, y);
    case Array(_) =>
      ArrayPeel(a, b, x, y);
      ItemsPrefix(a, b, 0, x, y);
      forall k | 0 <= k < |a.items| ensures SameData(a.items[k], b.items[k]) { ItemAlike(a, b, 0, k); }
    case Object(members, _) =>
      ObjectPeel(a, b, x, y);
      var la, lb := Listed(members), Listed(b.members);
      MembersPrefix(a, b, la, lb, 0, x, y);
      forall k | 0 <= k < |la| ensures la[k].key == lb[k].key && SameData(la[k].value, lb[k].value) {
        MemberAlike(la, lb, 0, k);
      }
  }

  lemma ArrayPeel(a: Tree, b: Tree, x: JsString, y: JsString)
    requires a.Array? && b.Array? && Print(a) + x == Print(b) + y
    ensures ItemsFrom(a, 0) + x == ItemsFrom(b, 0) + y
  {
    Regroup([OPEN_ARRAY], ItemsFrom(a, 0), x);
    Regroup([OPEN_ARRAY], ItemsFrom(b, 0), y);
    CutAt([OPEN_ARRAY], ItemsFrom(a, 0) + x, [OPEN_ARRAY], ItemsFrom(b, 0) + y);
  }

  lemma ObjectPeel(a: Tree, b: Tree, x: JsString, y: JsString)
    requires a.Object? && b.Object? && Print(a) + x == Print(b) + y
    ensures MembersFrom(a, Listed(a.members), 0) + x == MembersFrom(b, Listed(b.members), 0) + y
  {
    var ma, mb := MembersFrom(a, Listed(a.members), 0), MembersFrom(b, Listed(b.members), 0);
    Regroup([OPEN_OBJECT], ma, x);
    Regroup([OPEN_OBJECT], mb, y);
    CutAt([OPEN_OBJECT], ma + x, [OPEN_OBJECT], mb + y);
  }

  // ---------------------------------------------------------------- elements

  ghost predicate ItemsAlike(a: Tree, b: Tree, i: nat)
    requires a.Array? && b.Array? && |a.items| == |b.items| && i <= |a.items|
    decreases |a.items| - i
  {
    i < |a.items| ==> SameData(a.items[i], b.items[i]) && ItemsAlike(a, b, i + 1)
  }

  lemma {:induction false} ItemAlike(a: Tree, b: Tree, i: nat, k: nat)
    requires a.Array? && b.Array? && |a.items| == |b.items| && i <= k < |a.items| && ItemsAlike(a, b, i)
    ensures SameData(a.items[k], b.items[k])
    decreases k - i
  {
    if i < k { ItemAlike(a, b, i + 1, k); }
  }

  lemma ItemsStep(t: Tree, i: nat, x: JsString)
    requires t.Array? && i < |t.items|
    ensures ItemsFrom(t, i) + x == Separator(i) + (Print(t.items[i]) + (ItemsFrom(t, i + 1) + x))
    ensures Delimited(ItemsFrom(t, i + 1) + x)
    ensures ItemsFrom(t, i) + x != [] && (ItemsFrom(t, i) + x)[0] != CLOSE_ARRAY
  {
    PrintHead(t.items[i]);
    Regroup(Print(t.items[i]), ItemsFrom(t, i + 1), x);
    Regroup(Separator(i), Print(t.items[i]) + ItemsFrom(t, i + 1), x);
    if i + 1 < |t.items| { assert ItemsFrom(t, i + 1)[0] == COMMA; }
  }

  lemma ItemsPeel(a: Tree, b: Tree, i: nat, x: JsString, y: JsString)
    requires a.Array? && b.Array? && i < |a.items| && i < |b.items| && ItemsFrom(a, i) + x == ItemsFrom(b, i) + y
    ensures Print(a.items[i]) + (ItemsFrom(a, i + 1) + x) == Print(b.items[i]) + (ItemsFrom(b, i + 1) + y)
  {
    ItemsStep(a, i, x);
    ItemsStep(b, i, y);
    CutAt(Separator(i), Print(a.items[i]) + (ItemsFrom(a, i + 1) + x),
          Separator(i), Print(b.items[i]) + (ItemsFrom(b, i + 1) + y));
  }

  lemma ItemsEnd(a: Tree, b: Tree, i: nat, x: JsString, y: JsString)
    requires a.Array? && b.Array? && i <= |a.items| && i <= |b.items| && ItemsFrom(a, i) + x == ItemsFrom(b, i) + y
    ensures i == |a.items| <==> i == |b.items|
    ensures i == |a.items| ==> x == y
    ensures i < |a.items| && i < |b.items| ==>
              Delimited(ItemsFrom(a, i + 1) + x) && Delimited(ItemsFrom(b, i + 1) + y)
  {
    if i < |a.items| { ItemsStep(a, i, x); }
    if i < |b.items| { ItemsStep(b, i, y); }
    if i == |a.items| && i == |b.items| { CutAt([CLOSE_ARRAY], x, [CLOSE_ARRAY], y); }
  }

  lemma {:induction false} ItemsPrefix(a: Tree, b: Tree, i: nat, x: JsString, y: JsString)
    requires a.Array? && b.Array? && i <= |a.items| && i <= |b.items| && ItemsFrom(a, i) + x == ItemsFrom(b, i) + y
    ensures |a.items| == |b.items| && x == y && ItemsAlike(a, b, i)
    decreases a, 0, |a.items| - i
  {
    ItemsEnd(a, b, i, x, y);
    if i < |a.items| {
      ItemsPeel(a, b, i, x, y);
      PrintPrefix(a.items[i], b.items[i], ItemsFrom(a, i + 1) + x, ItemsFrom(b, i + 1) + y);
      ItemsPrefix(a, b, i + 1, x, y);
    }
  }

  // ----------------------------------------------------------------- members

  ghost predicate Lists(t: Tree, listing: seq<Member>) {
    t.Object? && forall m :: m in listing ==> m in t.members
  }

  ghost predicate MembersAlike(la: seq<Member>, lb: seq<Member>, i: nat)
    requires |la| == |lb| && i <= |la|
    decreases |la| - i
  {
    i < |la| ==> la[i].key == lb[i].key && SameData(la[i].value, lb[i].value) && MembersAlike(la, lb, i + 1)
  }

  lemma {:induction false} MemberAlike(la: seq<Member>, lb: seq<Member>, i: nat, k: nat)
    requires |la| == |lb| && i <= k < |la| && MembersAlike(la, lb, i)
    ensures la[k].key == lb[k].key && SameData(la[k].value, lb[k].value)
    decreases k - i
  {
    if i < k { MemberAlike(la, lb, i + 1, k); }
  }

  lemma {:induction false} AlikeFrom(la: seq<Member>, lb: seq<Member>, i: nat)
    requires |la| == |lb| && i <= |la|
    requires forall n :: 0 <= n < |la| ==> la[n].key == lb[n].key && SameData(la[n].value, lb[n].value)
    ensures MembersAlike(la, lb, i)
    decreases |la| - i
  {
    if i < |la| { AlikeFrom(la, lb, i + 1); }
  }

  function MemberThen(m: Member, rest: JsString): JsString {
    Quote(m.key) + ([COLON] + (Print(m.value) + rest))
  }

  lemma MembersStep(t: Tree, listing: seq<Member>, i: nat, x: JsString)
    requires Lists(t, listing) && i < |listing|
    ensures MembersFrom(t, listing, i) + x
         == Separator(i) + MemberThen(listing[i], MembersFrom(t, listing, i + 1) + x)
    ensures Delimited(MembersFrom(t, listing, i + 1) + x)
    ensures MembersFrom(t, listing, i) + x != [] && (MembersFrom(t, listing, i) + x)[0] != CLOSE_OBJECT
  {
    var rest, value, key := MembersFrom(t, listing, i + 1), Print(listing[i].value), Quote(listing[i].key);
    Regroup(value, rest, x);
    Regroup([COLON], value + rest, x);
    Regroup(key, [COLON] + (value + rest), x);
    Regroup(Separator(i), MemberThen(listing[i], rest), x);
    if i + 1 < |listing| { assert rest[0] == COMMA; }
  }

  lemma MemberPeel(a: Member, b: Member, x: JsString, y: JsString)
    requires MemberThen(a, x) == MemberThen(b, y)
    ensures a.key == b.key && Print(a.value) + x == Print(b.value) + y
  {
    var valueA, valueB := Print(a.value) + x, Print(b.value) + y;
    QuotePrefix(a.key, b.key, [COLON] + valueA, [COLON] + valueB);
    CutAt([COLON], valueA, [COLON], valueB);
  }

  lemma MembersPeel(a: Tree, b: Tree, la: seq<Member>, lb: seq<Member>, i: nat, x: JsString, y: JsString)
    requires Lists(a, la) && Lists(b, lb) && i < |la| && i < |lb|
    requires MembersFrom(a, la, i) + x == MembersFrom(b, lb, i) + y
    ensures la[i].key == lb[i].key
    ensures Print(la[i].value) + (MembersFrom(a, la, i + 1) + x) == Print(lb[i].value) + (MembersFrom(b, lb, i + 1) + y)
  {
    MembersStep(a, la, i, x);
    MembersStep(b, lb, i, y);
    var restA, restB := MembersFrom(a, la, i + 1) + x, MembersFrom(b, lb, i + 1) + y;
    CutAt(Separator(i), MemberThen(la[i], restA), Separator(i), MemberThen(lb[i], restB));
    MemberPeel(la[i], lb[i], restA, restB);
  }

  lemma MembersEnd(a: Tree, b: Tree, la: seq<Member>, lb: seq<Member>, i: nat, x: JsString, y: JsString)
    requires Lists(a, la) && Lists(b, lb) && i <= |la| && i <= |lb|
    requires MembersFrom(a, la, i) + x == MembersFrom(b, lb, i) + y
    ensures i == |la| <==> i == |lb|
    ensures i == |la| ==> x == y
    ensures i < |la| && i < |lb| ==>
              Delimited(MembersFrom(a, la, i + 1) + x) && Delimited(MembersFrom(b, lb, i + 1) + y)
  {
    if i < |la| { MembersStep(a, la, i, x); }
    if i < |lb| { MembersStep(b, lb, i, y); }
    if i == |la| && i == |lb| { CutAt([CLOSE_OBJECT], x, [CLOSE_OBJECT], y); }
  }

  lemma {:induction false} MembersPrefix(
    a: Tree, b: Tree, la: seq<Member>, lb: seq<Member>, i: nat, x: JsString, y: JsString)
    requires Lists(a, la) && Lists(b, lb) && i <= |la| && i <= |lb|
    requires MembersFrom(a, la, i) + x == MembersFrom(b, lb, i) + y
    ensures |la| == |lb| && x == y && MembersAlike(la, lb, i)
    decreases a, 0, |la| - i
  {
    MembersEnd(a, b, la, lb, i, x, y);
    if i < |la| {
      MembersPeel(a, b, la, lb, i, x, y);
      assert la[i] in a.members;
      PrintPrefix(la[i].value, lb[i].value, MembersFrom(a, la, i + 1) + x, MembersFrom(b, lb, i + 1) + y);
      MembersPrefix(a, b, la, lb, i + 1, x, y);
    }
  }

  // ------------------------------------------- equal data means equal text

  lemma {:induction false} SameDataPrintsTheSame(a: Tree, b: Tree)
    requires SameData(a, b)
    ensures Print(a) == Print(b)
    decreases a, 1, 0
  {
    match a
    case Array(_) => ItemsPrintTheSame(a, b, 0);
    case Object(members, _) =>
      AlikeFrom(Listed(members), Listed(b.members), 0);
      MembersPrintTheSame(a, b, Listed(members), Listed(b.members), 0);
    case _ =>
  }

  lemma {:induction false} ItemsPrintTheSame(a: Tree, b: Tree, i: nat)
    requires SameData(a, b) && a.Array? && i <= |a.items|
    ensures ItemsFrom(a, i) == ItemsFrom(b, i)
    decreases a, 0, |a.items| - i
  {
    if i < |a.items| {
      SameDataPrintsTheSame(a.items[i], b.items[i]);
      ItemsPrintTheSame(a, b, i + 1);
    }
  }

  lemma {:induction false} MembersPrintTheSame(a: Tree, b: Tree, la: seq<Member>, lb: seq<Member>, i: nat)
    requires Lists(a, la) && Lists(b, lb) && i <= |la| == |lb| && MembersAlike(la, lb, i)
    ensures MembersFrom(a, la, i) == MembersFrom(b, lb, i)
    decreases a, 0, |la| - i
  {
    if i < |la| {
      assert Print(la[i].value) == Print(lb[i].value) by {
        assert la[i] in a.members;
        SameDataPrintsTheSame(la[i].value, lb[i].value);
      }
      assert MembersFrom(a, la, i + 1) == MembersFrom(b, lb, i + 1) by {
        MembersPrintTheSame(a, b, la, lb, i + 1);
      }
    }
  }

  /** Two normalised values print the same text exactly when their own members agree. */
  lemma EqualTextIffSameData(a: Tree, b: Tree)
    ensures Print(a) == Print(b) <==> SameData(a, b)
  {
    if Print(a) == Print(b) {
      assert Print(a) + [] == Print(b) + [];
      PrintPrefix(a, b, [], []);
    }
    if SameData(a, b) { SameDataPrintsTheSame(a, b); }
  }

  // ------------------------------------- what the listing order depends on

  function Keys(members: seq<Member>): (r: seq<JsString>)
    ensures |r| == |members| && forall i :: 0 <= i < |r| ==> r[i] == members[i].key
  {
    seq(|members|, i requires 0 <= i < |members| => members[i].key)
  }

  /** Every object was assigned its members in code-unit order of their keys. */
  ghost predicate Canonical(t: Tree) {
    match t
    case Array(items) => forall i | 0 <= i < |items| :: Canonical(items[i])
    case Object(members, hidden) =>
      && StrictlySorted(Keys(members))
      && (forall i | 0 <= i < |members| :: Canonical(members[i].value))
      && (hidden.Some? ==> Canonical(hidden.value))
    case _ => true
  }

  ghost predicate NothingHidden(t: Tree) {
    match t
    case Array(items) => forall i | 0 <= i < |items| :: NothingHidden(items[i])
    case Object(members, hidden) => hidden.None? && forall i | 0 <= i < |members| :: NothingHidden(members[i].value)
    case _ => true
  }

  lemma ListedKeys(members: seq<Member>, k: JsString)
    ensures k in Keys(Listed(members)) <==> k in Keys(members)
  {
    var listing := Listed(members);
    if k in Keys(listing) {
      var i :| 0 <= i < |listing| && Keys(listing)[i] == k;
      assert listing[i] in members;
      var j :| 0 <= j < |members| && members[j] == listing[i];
      assert Keys(members)[j] == k;
    }
    if k in Keys(members) {
      var i :| 0 <= i < |members| && Keys(members)[i] == k;
      assert members[i] in listing;
      var j :| 0 <= j < |listing| && listing[j] == members[i];
      assert Keys(listing)[j] == k;
    }
  }

  /** Objects whose listings agree in step were assigned the same keys. */
  lemma SameListingSameKeys(a: seq<Member>, b: seq<Member>)
    requires StrictlySorted(Keys(a)) && StrictlySorted(Keys(b)) && Keys(Listed(a)) == Keys(Listed(b))
    ensures Keys(a) == Keys(b)
  {
    forall k ensures k in Keys(a) <==> k in Keys(b) {
      ListedKeys(a, k);
      ListedKeys(b, k);
    }
    SortedKeysUnique(Keys(a), Keys(b));
  }

  lemma SameKeySameData(a: seq<Member>, b: seq<Member>, la: seq<Member>, lb: seq<Member>, i: nat)
    requires StrictlySorted(Keys(b)) && Keys(a) == Keys(b) && i < |a|
    requires a[i] in la && (forall m :: m in lb ==> m in b) && |la| == |lb| && MembersAlike(la, lb, 0)
    ensures i < |b| && a[i].key == b[i].key && SameData(a[i].value, b[i].value)
  {
    var n :| 0 <= n < |la| && la[n] == a[i];
    MemberAlike(la, lb, 0, n);
    assert lb[n] in b;
    var j :| 0 <= j < |b| && b[j] == lb[n];
    assert Keys(a)[i] == Keys(b)[i] == Keys(b)[j];
  }

  /** For canonical objects the same data is the same keys with the same data under each. */
  lemma SameDataOfObjects(a: Tree, b: Tree)
    requires a.Object? && b.Object? && StrictlySorted(Keys(a.members)) && StrictlySorted(Keys(b.members))
    requires SameData(a, b)
    ensures |a.members| == |b.members|
    ensures forall i :: 0 <= i < |a.members| ==>
              a.members[i].key == b.members[i].key && SameData(a.members[i].value, b.members[i].value)
  {
    var la, lb := Listed(a.members), Listed(b.members);
    AlikeFrom(la, lb, 0);
    assert Keys(la) == Keys(lb);
    SameListingSameKeys(a.members, b.members);
    assert |Keys(a.members)| == |Keys(b.members)|;
    forall i | 0 <= i < |a.members|
      ensures a.members[i].key == b.members[i].key && SameData(a.members[i].value, b.members[i].value)
    {
      SameKeySameData(a.members, b.members, la, lb, i);
    }
  }

  // ------------------------------- the listing depends only on the set of keys

  predicate KeyIndexLeq(a: JsString, b: JsString) {
    IndexValue(a) <= IndexValue(b)
  }

  function SelectKeys(keys: seq<JsString>, indexes: bool): seq<JsString> {
    if keys == [] then []
    else (if IsArrayIndex(keys[0]) == indexes then [keys[0]] else []) + SelectKeys(keys[1..], indexes)
  }

  function ListKeys(created: seq<JsString>): seq<JsString> {
    Sort(KeyIndexLeq, SelectKeys(created, true)) + SelectKeys(created, false)
  }

  lemma KeysCons(m: Member, rest: seq<Member>)
    ensures Keys([m] + rest) == [m.key] + Keys(rest)
  {
  }

  lemma {:induction false} KeysOfSelect(members: seq<Member>, indexes: bool)
    ensures Keys(Select(members, indexes)) == SelectKeys(Keys(members), indexes)
  {
    if members != [] {
      assert Keys(members)[1..] == Keys(members[1..]) && Keys(members)[0] == members[0].key;
      KeysOfSelect(members[1..], indexes);
      KeysCons(members[0], Select(members[1..], indexes));
    }
  }

  lemma {:induction false} KeysOfInsert(m: Member, s: seq<Member>)
    ensures Keys(Insert(IndexLeq, m, s)) == Insert(KeyIndexLeq, m.key, Keys(s))
  {
    if s != [] {
      assert Keys(s)[1..] == Keys(s[1..]) && Keys(s)[0] == s[0].key;
      if IndexLeq(m, s[0]) {
        KeysCons(m, s);
      } else {
        KeysOfInsert(m, s[1..]);
        KeysCons(s[0], Insert(IndexLeq, m, s[1..]));
      }
    }
  }

  lemma {:induction false} KeysOfSort(s: seq<Member>)
    ensures Keys(Sort(IndexLeq, s)) == Sort(KeyIndexLeq, Keys(s))
  {
    if s != [] {
      assert Keys(s)[1..] == Keys(s[1..]) && Keys(s)[0] == s[0].key;
      KeysOfSort(s[1..]);
      KeysOfInsert(s[0], Sort(IndexLeq, s[1..]));
    }
  }

  lemma KeysConcat(a: seq<Member>, b: seq<Member>)
    ensures Keys(a + b) == Keys(a) + Keys(b)
  {
  }

  lemma KeysOfListing(indexes: seq<Member>, others: seq<Member>)
    ensures Keys(Sort(IndexLeq, indexes) + others) == Sort(KeyIndexLeq, Keys(indexes)) + Keys(others)
  {
    KeysOfSort(indexes);
    KeysConcat(Sort(IndexLeq, indexes), others);
  }

  lemma KeysOfListed(created: seq<Member>)
    ensures Keys(Listed(created)) == ListKeys(Keys(created))
  {
    KeysOfSelect(created, true);
    KeysOfSelect(created, false);
    KeysOfListing(Select(created, true), Select(created, false));
  }

  /** Two key-sorted objects with the same set of keys list them in the same order. */
  lemma ListingDependsOnKeySet(a: seq<Member>, b: seq<Member>)
    requires StrictlySorted(Keys(a)) && StrictlySorted(Keys(b)) && forall k :: k in Keys(a) <==> k in Keys(b)
    ensures Keys(Listed(a)) == Keys(Listed(b))
  {
    SortedKeysUnique(Keys(a), Keys(b));
    KeysOfListed(a);
    KeysOfListed(b);
  }

  lemma SameAtListing(a: seq<Member>, b: seq<Member>, x: Member, y: Member)
    requires StrictlySorted(Keys(b)) && Keys(a) == Keys(b)
    requires forall i :: 0 <= i < |a| && i < |b| ==> SameData(a[i].value, b[i].value)
    requires x in a && y in b && x.key == y.key
    ensures SameData(x.value, y.value)
  {
    var i :| 0 <= i < |a| && a[i] == x;
    var j :| 0 <= j < |b| && b[j] == y;
    SamePosition(a, b, i, j);
    assert SameData(a[i].value, b[i].value);
  }

  lemma SamePosition(a: seq<Member>, b: seq<Member>, i: nat, j: nat)
    requires StrictlySorted(Keys(b)) && Keys(a) == Keys(b)
    requires i < |a| && j < |b| && a[i].key == b[j].key
    ensures |a| == |b| && i == j
  {
    assert |Keys(a)| == |Keys(b)|;
    assert Keys(b)[i] == Keys(b)[j];
  }

  /** Same keys with the same data under each make the same data. */
  lemma SameMembersSameData(a: Tree, b: Tree)
    requires a.Object? && b.Object? && StrictlySorted(Keys(a.members)) && Keys(a.members) == Keys(b.members)
    requires forall i :: 0 <= i < |a.members| && i < |b.members| ==> SameData(a.members[i].value, b.members[i].value)
    ensures SameData(a, b)
  {
    var la, lb := Listed(a.members), Listed(b.members);
    SameMembersListAlike(a.members, b.members, la, lb);
  }

  lemma SameMembersListAlike(a: seq<Member>, b: seq<Member>, la: seq<Member>, lb: seq<Member>)
    requires StrictlySorted(Keys(a)) && Keys(a) == Keys(b) && la == Listed(a) && lb == Listed(b)
    requires forall i :: 0 <= i < |a| && i < |b| ==> SameData(a[i].value, b[i].value)
    ensures |la| == |lb|
    ensures forall n :: 0 <= n < |la| ==> la[n].key == lb[n].key && SameData(la[n].value, lb[n].value)
  {
    ListingDependsOnKeySet(a, b);
    assert |la| == |Keys(la)| == |Keys(lb)| == |lb|;
    forall n | 0 <= n < |la| ensures la[n].key == lb[n].key && SameData(la[n].value, lb[n].value) {
      AlikeAt(a, b, la, lb, n);
    }
  }

  lemma AlikeAt(a: seq<Member>, b: seq<Member>, la: seq<Member>, lb: seq<Member>, n: nat)
    requires StrictlySorted(Keys(b)) && Keys(a) == Keys(b) && Keys(la) == Keys(lb) && n < |la| && n < |lb|
    requires (forall m :: m in la ==> m in a) && (forall m :: m in lb ==> m in b)
    requires forall i :: 0 <= i < |a| && i < |b| ==> SameData(a[i].value, b[i].value)
    ensures la[n].key == lb[n].key && SameData(la[n].value, lb[n].value)
  {
    assert Keys(la)[n] == Keys(lb)[n];
    assert la[n] in a && lb[n] in b;
    SameAtListing(a, b, la[n], lb[n]);
  }

  /** Only what was hidden under `__proto__` can make different values agree. */
  lemma {:induction false} SameDataIsEquality(a: Tree, b: Tree)
    requires Canonical(a) && Canonical(b) && NothingHidden(a) && NothingHidden(b)
    ensures SameData(a, b) <==> a == b
  {
    if a == b { SameDataReflexive(a); }
    if SameData(a, b) {
      match a
      case Array(items) =>
        forall i | 0 <= i < |items| ensures items[i] == b.items[i] { SameDataIsEquality(items[i], b.items[i]); }
      case Object(members, _) =>
        SameDataOfObjects(a, b);
        forall i | 0 <= i < |members| ensures members[i] == b.members[i] {
          SameDataIsEquality(members[i].value, b.members[i].value);
        }
      case _ =>
    }
  }

  lemma {:induction false} SameDataReflexive(a: Tree)
    ensures SameData(a, a)
  {
    match a
    case Array(items) => forall i | 0 <= i < |items| ensures SameData(items[i], items[i]) { SameDataReflexive(items[i]); }
    case Object(members, _) =>
      forall i | 0 <= i < |Listed(members)| ensures SameData(Listed(members)[i].value, Listed(members)[i].value) {
        assert Listed(members)[i] in members;
        SameDataReflexive(Listed(members)[i].value);
      }
    case _ =>
  }
}

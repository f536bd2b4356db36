/**
 * A reader of JSON texts without insignificant whitespace, written from RFC 8259,
 * and what it recovers from the texts that are printed: strings, literals,
 * numbers, arrays and objects with their members in the order of the text.
 */
module JsonReader {
  import opened Prelude
  import opened JsText
  import opened Sorting
  import opened Decimals
  import T = JsonTrees
  import JsonText
  import E = JsonEquality
  import Hex

  datatype Json =
    | Null
    | Bool(value: bool)
    | Number(text: JsString)
    | String(units: JsString)
    | Array(items: seq<Json>)
    | Object(members: seq<(JsString, Json)>)

  // ------------------------------------------------------ strings (section 7)

  /** What a two-character escape stands for, by its second character. */
  function Escaped(u: CodeUnit): Option<CodeUnit> {
    match u
    case 34 => Some(34)
    case 92 => Some(92)
    case 47 => Some(47)
    case 98 => Some(8)
    case 102 => Some(12)
    case 110 => Some(10)
    case 114 => Some(13)
    case 116 => Some(9)
    case _ => None
  }

  function HexDigit(u: CodeUnit): (r: Option<nat>)
    ensures r.Some? ==> r.value < 16
  {
    if 48 <= u <= 57 then Some(u - 48)
    else if 65 <= u <= 70 then Some(u - 55)
    else if 97 <= u <= 102 then Some(u - 87)
    else None
  }

  function HexFour(a: CodeUnit, b: CodeUnit, c: CodeUnit, d: CodeUnit): Option<CodeUnit> {
    if HexDigit(a).Some? && HexDigit(b).Some? && HexDigit(c).Some? && HexDigit(d).Some?
    then Some(((HexDigit(a).value * 16 + HexDigit(b).value) * 16 + HexDigit(c).value) * 16 + HexDigit(d).value)
    else None
  }

  /** The unit at the front of a string body, and how many units spell it. */
  function Character(s: JsString): (r: Option<(CodeUnit, nat)>)
    ensures r.Some? ==> 1 <= r.value.1 <= |s|
  {
    if s == [] || s[0] < 32 || s[0] == 34 then None
    else if s[0] != 92 then Some((s[0], 1))
    else if |s| >= 6 && s[1] == 117 then
      var u := HexFour(s[2], s[3], s[4], s[5]);
      if u.Some? then Some((u.value, 6)) else None
    else if |s| >= 2 && Escaped(s[1]).Some? then Some((Escaped(s[1]).value, 2))
    else None
  }

  /** The string whose body starts here, and what follows its closing quote. */
  function StringBody(s: JsString): (r: Option<(JsString, JsString)>)
    ensures r.Some? ==> |r.value.1| < |s|
    decreases |s|
  {
    if s != [] && s[0] == 34 then Some(([], s[1..]))
    else
      var c := Character(s);
      if c.None? then None
      else
        var rest := StringBody(s[c.value.1..]);
        if rest.None? then None else Some(([c.value.0] + rest.value.0, rest.value.1))
  }

  // ---------------------------------------------------- numbers (section 6)

  /** The units of which numbers are made, at the front. */
  function NumberRun(s: JsString): (n: nat)
    ensures n <= |s|
  {
    if s == [] then 0
    else if 48 <= s[0] <= 57 || s[0] in [43, 45, 46, 69, 101] then 1 + NumberRun(s[1..])
    else 0
  }

  // ------------------------------------- values, arrays, objects (sections 3-5)

  function ReadValue(s: JsString): (r: Option<(Json, JsString)>)
    ensures r.Some? ==> |r.value.1| < |s|
    decreases |s|, 0
  {
    if s == [] then None
    else if s[0] == 34 then
      var text := StringBody(s[1..]);
      if text.None? then None else Some((String(text.value.0), text.value.1))
    else if s[0] == 91 then
      if |s| >= 2 && s[1] == 93 then Some((Array([]), s[2..]))
      else
        var items := ReadItems(s[1..]);
        if items.None? then None else Some((Array(items.value.0), items.value.1))
    else if s[0] == 123 then
      if |s| >= 2 && s[1] == 125 then Some((Object([]), s[2..]))
      else
        var members := ReadMembers(s[1..]);
        if members.None? then None else Some((Object(members.value.0), members.value.1))
    else if [110, 117, 108, 108] <= s then Some((Null, s[4..]))
    else if [116, 114, 117, 101] <= s then Some((Bool(true), s[4..]))
    else if [102, 97, 108, 115, 101] <= s then Some((Bool(false), s[5..]))
    else
      var n := NumberRun(s);
      if n > 0 && T.IsNumber(s[..n]) then Some((Number(s[..n]), s[n..])) else None
  }

  /** One value or more, separated by commas, up to the closing bracket. */
  function ReadItems(s: JsString): (r: Option<(seq<Json>, JsString)>)
    ensures r.Some? ==> |r.value.1| < |s|
    decreases |s|, 1
  {
    var first := ReadValue(s);
    if first.None? || first.value.1 == [] then None
    else
      var rest := first.value.1;
      if rest[0] == 93 then Some(([first.value.0], rest[1..]))
      else if rest[0] != 44 then None
      else
        var more := ReadItems(rest[1..]);
        if more.None? then None else Some(([first.value.0] + more.value.0, more.value.1))
  }

  /** A name, a colon and a value. */
  function ReadMember(s: JsString): (r: Option<((JsString, Json), JsString)>)
    ensures r.Some? ==> |r.value.1| < |s|
    decreases |s|, 0
  {
    if s == [] || s[0] != 34 then None
    else
      var name := StringBody(s[1..]);
      if name.None? || name.value.1 == [] || name.value.1[0] != 58 then None
      else
        var value := ReadValue(name.value.1[1..]);
        if value.None? then None else Some(((name.value.0, value.value.0), value.value.1))
  }

  function ReadMembers(s: JsString): (r: Option<(seq<(JsString, Json)>, JsString)>)
    ensures r.Some? ==> |r.value.1| < |s|
    decreases |s|, 1
  {
    var first := ReadMember(s);
    if first.None? || first.value.1 == [] then None
    else
      var rest := first.value.1;
      if rest[0] == 125 then Some(([first.value.0], rest[1..]))
      else if rest[0] != 44 then None
      else
        var more := ReadMembers(rest[1..]);
        if more.None? then None else Some(([first.value.0] + more.value.0, more.value.1))
  }

  /** A whole text (section 2). */
  function Read(s: JsString): Option<Json> {
    var r := ReadValue(s);
    if r.Some? && r.value.1 == [] then Some(r.value.0) else None
  }

  // ---------------------------------------------------------- quoted strings

  lemma DigitIsRead(n: nat)
    requires n < 16
    ensures HexDigit(Hex.Digit(n)) == Some(n)
  {
  }

  lemma FourIsRead(u: CodeUnit)
    ensures var f := Hex.Four(u);
            HexFour(f[0], f[1], f[2], f[3]) == Some(u)
  {
    DigitIsRead(u / 4096);
    DigitIsRead(u / 256 % 16);
    DigitIsRead(u / 16 % 16);
    DigitIsRead(u % 16);
    Hex.Recomposed(u);
  }

  lemma SixAreRead(u: CodeUnit, x: JsString)
    ensures Character([92, 117] + Hex.Four(u) + x) == Some((u, 6))
  {
    var f := Hex.Four(u);
    var text := [92, 117] + f + x;
    FourIsRead(u);
    assert text[0] == 92 && text[1] == 117 && text[2] == f[0] && text[3] == f[1] && text[4] == f[2] && text[5] == f[3];
  }

  lemma TwoAreRead(u: CodeUnit, code: CodeUnit, x: JsString)
    requires Escaped(code) == Some(u)
    ensures Character([92, code] + x) == Some((u, 2))
  {
    var text := [92, code] + x;
    assert text[0] == 92 && text[1] == code;
  }

  lemma UnitIsRead(u: CodeUnit, x: JsString)
    ensures Character(JsonText.EscapeUnit(u) + x) == Some((u, |JsonText.EscapeUnit(u)|))
  {
    var e := JsonText.EscapeUnit(u);
    if |e| == 6 {
      SixAreRead(u, x);
    } else if |e| == 2 {
      assert e == [92, e[1]];
      TwoAreRead(u, e[1], x);
    } else {
      assert ([u] + x)[0] == u;
    }
  }

  lemma StringStep(u: CodeUnit, e: JsString, x: JsString)
    requires e != [] && Character(e + x) == Some((u, |e|)) && StringBody(x).Some?
    ensures StringBody(e + x) == Some(([u] + StringBody(x).value.0, StringBody(x).value.1))
  {
    assert (e + x)[|e|..] == x;
  }

  lemma PlainStep(u: CodeUnit, x: JsString)
    requires u >= 32 && u != 34 && u != 92 && StringBody(x).Some?
    ensures StringBody([u] + x) == Some(([u] + StringBody(x).value.0, StringBody(x).value.1))
  {
    StringStep(u, [u], x);
  }

  lemma PairStep(a: CodeUnit, b: CodeUnit, x: JsString, units: JsString, rest: JsString)
    requires JsonText.IsLead(a) && JsonText.IsTrail(b) && StringBody(x) == Some((units, rest))
    ensures StringBody([a, b] + x) == Some(([a, b] + units, rest))
  {
    PlainStep(b, x);
    PlainStep(a, [b] + x);
    Regroup([a], [b], x);
    Regroup([a], [b], units);
    assert [a] + [b] == [a, b];
  }

  /** Escaping is read back, whatever follows the closing quote. */
  lemma {:induction false} EscapeIsRead(s: JsString, rest: JsString)
    ensures StringBody(JsonText.Escape(s) + ([34] + rest)) == Some((s, rest))
    decreases |s|
  {
    var tail := [34] + rest;
    if s == [] {
      assert JsonText.Escape(s) + tail == tail && tail[1..] == rest;
    } else if JsonText.StartsWithPair(s) {
      EscapeIsRead(s[2..], rest);
      Regroup(s[..2], JsonText.Escape(s[2..]), tail);
      PairStep(s[0], s[1], JsonText.Escape(s[2..]) + tail, s[2..], rest);
      assert s[..2] == [s[0], s[1]] && s == [s[0], s[1]] + s[2..];
    } else {
      var e := JsonText.EscapeUnit(s[0]);
      EscapeIsRead(s[1..], rest);
      Regroup(e, JsonText.Escape(s[1..]), tail);
      UnitIsRead(s[0], JsonText.Escape(s[1..]) + tail);
      StringStep(s[0], e, JsonText.Escape(s[1..]) + tail);
      assert s == [s[0]] + s[1..];
    }
  }

  /** A quoted string is read back from the front of any text. */
  lemma QuoteIsRead(s: JsString, rest: JsString)
    ensures var text := JsonText.Quote(s) + rest;
            text[0] == 34 && StringBody(text[1..]) == Some((s, rest))
  {
    EscapeIsRead(s, rest);
    var e := JsonText.Escape(s);
    Regroup([34] + e, [34], rest);
    Regroup([34], e, [34] + rest);
    assert ([34] + (e + ([34] + rest)))[1..] == e + ([34] + rest);
  }

  // ------------------------------------------------------- minimal escaping

  /** Half of a surrogate pair without its other half. */
  predicate IsLone(s: JsString, i: nat)
    requires i < |s|
  {
    || (0xD800 <= s[i] < 0xDC00 && !(i + 1 < |s| && 0xDC00 <= s[i + 1] < 0xE000))
    || (0xDC00 <= s[i] < 0xE000 && !(i > 0 && 0xD800 <= s[i - 1] < 0xDC00))
  }

  /** What section 7 of RFC 8259 and well-formed output ask to be escaped. */
  predicate MustEscape(s: JsString, i: nat)
    requires i < |s|
  {
    s[i] < 32 || s[i] == 34 || s[i] == 92 || IsLone(s, i)
  }

  /** Units that need an escape have the short one if there is one, else four small hexadecimal digits. */
  lemma EscapesAreShortest(u: CodeUnit)
    ensures var e := JsonText.EscapeUnit(u);
            && (u in {8, 9, 10, 12, 13, 34, 92} ==> |e| == 2)
            && (u !in {8, 9, 10, 12, 13, 34, 92} && (u < 32 || 0xD800 <= u < 0xE000) ==>
                  |e| == 6 && forall k :: 2 <= k < 6 ==> 48 <= e[k] <= 57 || 97 <= e[k] <= 102)
            && (u !in {34, 92} && u >= 32 && !(0xD800 <= u < 0xE000) ==> e == [u])
  {
  }

  /** Escaping changes nothing exactly where nothing must be escaped. */
  lemma {:induction false} EscapesOnlyWhatMust(s: JsString)
    ensures JsonText.Escape(s) == s <==> forall i :: 0 <= i < |s| ==> !MustEscape(s, i)
    ensures |JsonText.Escape(s)| >= |s|
    decreases |s|
  {
    if s == [] {
    } else if JsonText.StartsWithPair(s) {
      EscapesOnlyWhatMust(s[2..]);
      TailMust(s, 2);
      assert s == s[..2] + s[2..];
      assert !MustEscape(s, 0) && !MustEscape(s, 1);
      if JsonText.Escape(s) == s { CutAt(s[..2], JsonText.Escape(s[2..]), s[..2], s[2..]); }
    } else {
      EscapesOnlyWhatMust(s[1..]);
      EscapesAreShortest(s[0]);
      assert s == [s[0]] + s[1..];
      assert MustEscape(s, 0) <==> |JsonText.EscapeUnit(s[0])| > 1;
      if !MustEscape(s, 0) {
        TailMust(s, 1);
        if JsonText.Escape(s) == s { CutAt([s[0]], JsonText.Escape(s[1..]), [s[0]], s[1..]); }
      }
    }
  }

  /** What must be escaped behind a whole character does not depend on that character. */
  lemma TailMust(s: JsString, n: nat)
    requires n == 1 || (n == 2 && JsonText.StartsWithPair(s))
    requires n <= |s| && (n == 1 ==> !(0xD800 <= s[0] < 0xDC00) && !MustEscape(s, 0))
    ensures (forall i :: n <= i < |s| ==> !MustEscape(s, i))
       <==> forall i :: 0 <= i < |s[n..]| ==> !MustEscape(s[n..], i)
  {
    forall i | 0 <= i < |s[n..]| ensures MustEscape(s[n..], i) <==> MustEscape(s, i + n) {}
    if forall i :: 0 <= i < |s[n..]| ==> !MustEscape(s[n..], i) {
      forall i | n <= i < |s| ensures !MustEscape(s, i) { assert !MustEscape(s[n..], i - n); }
    }
  }

  // ---------------------------------------------------- what a tree stands for

  /** The data that own members show, in the order in which objects list them. */
  function Data(t: T.Tree): Json
    decreases t, 1, 0
  {
    match t
    case Null => Null
    case Bool(b) => Bool(b)
    case Number(text) => Number(text)
    case String(units) => String(units)
    case Array(_) => Array(ItemsData(t, 0))
    case Object(members, _) => Object(MembersData(t, T.Listed(members), 0))
  }

  function ItemsData(t: T.Tree, i: nat): (r: seq<Json>)
    requires t.Array? && i <= |t.items|
    ensures |r| == |t.items| - i
    decreases t, 0, |t.items| - i
  {
    if i == |t.items| then [] else [Data(t.items[i])] + ItemsData(t, i + 1)
  }

  function MembersData(t: T.Tree, listing: seq<T.Member>, i: nat): (r: seq<(JsString, Json)>)
    requires E.Lists(t, listing) && i <= |listing|
    ensures |r| == |listing| - i
    decreases t, 0, |listing| - i
  {
    if i == |listing| then []
    else
      assert listing[i] in t.members;
      [(listing[i].key, Data(listing[i].value))] + MembersData(t, listing, i + 1)
  }

  lemma {:induction false} ItemData(t: T.Tree, i: nat, k: nat)
    requires t.Array? && i <= k < |t.items|
    ensures ItemsData(t, i)[k - i] == Data(t.items[k])
    decreases k - i
  {
    if i < k { ItemData(t, i + 1, k); }
  }

  lemma {:induction false} MemberData(t: T.Tree, listing: seq<T.Member>, i: nat, k: nat)
    requires E.Lists(t, listing) && i <= k < |listing|
    ensures MembersData(t, listing, i)[k - i] == (listing[k].key, Data(listing[k].value))
    decreases k - i
  {
    if i < k { MemberData(t, listing, i + 1, k); }
  }

  lemma NumberRunOf(s: JsString, x: JsString)
    requires T.IsNumberText(s) && E.Delimited(x)
    ensures NumberRun(s + x) == |s|
  {
    assert forall i :: 0 <= i < |s| ==> s[i] in s && T.IsNumberUnit(s[i]);
    RunStops(s, x);
  }

  lemma {:induction false} RunStops(s: JsString, x: JsString)
    requires (forall i :: 0 <= i < |s| ==> T.IsNumberUnit(s[i])) && E.Delimited(x)
    ensures NumberRun(s + x) == |s|
  {
    if s == [] {
      assert s + x == x;
    } else {
      assert (s + x)[1..] == s[1..] + x;
      RunStops(s[1..], x);
    }
  }

  lemma NumberIsRead(s: T.NumberText, x: JsString)
    requires E.Delimited(x)
    ensures ReadValue(s + x) == Some((Number(s), x))
  {
    NumberRunOf(s, x);
    var text := s + x;
    assert text[0] == s[0] && text[..|s|] == s && text[|s|..] == x;
  }

  lemma WordIsRead(word: JsString, x: JsString, v: Json)
    requires (word, v) in {
      ([110, 117, 108, 108], Null), ([116, 114, 117, 101], Bool(true)), ([102, 97, 108, 115, 101], Bool(false))}
    ensures ReadValue(word + x) == Some((v, x))
  {
    var text := word + x;
    assert word <= text && text[0] == word[0] && text[|word|..] == x;
  }

  lemma StringIsRead(s: JsString, x: JsString)
    ensures ReadValue(JsonText.Quote(s) + x) == Some((String(s), x))
  {
    QuoteIsRead(s, x);
  }

  /** A printed value is read back from the front of any text that delimits it. */
  lemma {:induction false} PrintIsRead(t: T.Tree, x: JsString)
    requires E.Delimited(x)
    ensures ReadValue(T.Print(t) + x) == Some((Data(t), x))
    decreases t, 1, 0
  {
    match t
    case Null =>
      assert Text("null") == [110, 117, 108, 108];
      WordIsRead([110, 117, 108, 108], x, Null);
    case Bool(b) =>
      assert Text("true") == [116, 114, 117, 101] && Text("false") == [102, 97, 108, 115, 101];
      WordIsRead(T.Print(t), x, Bool(b));
    case Number(s) => NumberIsRead(s, x);
    case String(s) => StringIsRead(s, x);
    case Array(items) =>
      if |items| > 0 { ItemsAreRead(t, 0, x); }
      ArrayIsRead(t, x);
    case Object(members, _) =>
      var listing := T.Listed(members);
      if |listing| > 0 { MembersAreRead(t, listing, 0, x); }
      ObjectIsRead(t, listing, x);
  }

  // ------------------------------------------------------------------ arrays

  /** The elements from position i on, without the comma before them. */
  function ItemsText(t: T.Tree, i: nat, x: JsString): JsString
    requires t.Array? && i < |t.items|
  {
    T.Print(t.items[i]) + (T.ItemsFrom(t, i + 1) + x)
  }

  lemma ItemsNext(t: T.Tree, i: nat, x: JsString)
    requires t.Array? && i < |t.items|
    ensures E.Delimited(T.ItemsFrom(t, i + 1) + x)
    ensures i + 1 == |t.items| ==> T.ItemsFrom(t, i + 1) + x == [93] + x
    ensures i + 1 < |t.items| ==> T.ItemsFrom(t, i + 1) + x == [44] + ItemsText(t, i + 1, x)
  {
    E.ItemsStep(t, i, x);
    if i + 1 < |t.items| { E.ItemsStep(t, i + 1, x); }
  }

  lemma ItemsReadStep(s: JsString, v: Json, rest: JsString)
    requires ReadValue(s) == Some((v, rest)) && rest != []
    ensures rest[0] == 93 ==> ReadItems(s) == Some(([v], rest[1..]))
    ensures rest[0] == 44 && ReadItems(rest[1..]).Some? ==>
              ReadItems(s) == Some(([v] + ReadItems(rest[1..]).value.0, ReadItems(rest[1..]).value.1))
  {
  }

  lemma {:induction false} ItemsAreRead(t: T.Tree, i: nat, x: JsString)
    requires t.Array? && i < |t.items|
    ensures ReadItems(ItemsText(t, i, x)) == Some((ItemsData(t, i), x))
    decreases t, 0, |t.items| - i
  {
    var rest := T.ItemsFrom(t, i + 1) + x;
    ItemsNext(t, i, x);
    PrintIsRead(t.items[i], rest);
    ItemsReadStep(ItemsText(t, i, x), Data(t.items[i]), rest);
    if i + 1 == |t.items| {
      assert rest[1..] == x && ItemsData(t, i) == [Data(t.items[i])];
    } else {
      ItemsAreRead(t, i + 1, x);
      assert rest[1..] == ItemsText(t, i + 1, x);
    }
  }

  lemma BracketIsRead(body: JsString, items: seq<Json>, x: JsString)
    requires if body != [] && body[0] == 93 then items == [] && x == body[1..] else ReadItems(body) == Some((items, x))
    ensures ReadValue([91] + body) == Some((Array(items), x))
  {
    var text := [91] + body;
    assert text[1..] == body && (body != [] ==> text[1] == body[0] && text[2..] == body[1..]);
  }

  lemma ArrayBody(t: T.Tree, x: JsString)
    requires t.Array?
    ensures T.Print(t) + x == [91] + (T.ItemsFrom(t, 0) + x)
  {
    Regroup([91], T.ItemsFrom(t, 0), x);
  }

  lemma FirstItem(t: T.Tree, x: JsString)
    requires t.Array? && |t.items| > 0
    ensures T.ItemsFrom(t, 0) + x == ItemsText(t, 0, x) && ItemsText(t, 0, x)[0] != 93
  {
    E.ItemsStep(t, 0, x);
    assert [] + ItemsText(t, 0, x) == ItemsText(t, 0, x);
  }

  lemma ArrayIsRead(t: T.Tree, x: JsString)
    requires t.Array?
    requires |t.items| > 0 ==> ReadItems(ItemsText(t, 0, x)) == Some((ItemsData(t, 0), x))
    ensures ReadValue(T.Print(t) + x) == Some((Data(t), x))
  {
    var body := T.ItemsFrom(t, 0) + x;
    ArrayBody(t, x);
    if |t.items| == 0 { assert body[1..] == x; } else { FirstItem(t, x); }
    BracketIsRead(body, ItemsData(t, 0), x);
  }

  // ----------------------------------------------------------------- objects

  /** The members from position i on, without the comma before them. */
  function MembersText(t: T.Tree, listing: seq<T.Member>, i: nat, x: JsString): JsString
    requires E.Lists(t, listing) && i < |listing|
  {
    E.MemberThen(listing[i], T.MembersFrom(t, listing, i + 1) + x)
  }

  lemma MembersNext(t: T.Tree, listing: seq<T.Member>, i: nat, x: JsString)
    requires E.Lists(t, listing) && i < |listing|
    ensures E.Delimited(T.MembersFrom(t, listing, i + 1) + x)
    ensures i + 1 == |listing| ==> T.MembersFrom(t, listing, i + 1) + x == [125] + x
    ensures i + 1 < |listing| ==> T.MembersFrom(t, listing, i + 1) + x == [44] + MembersText(t, listing, i + 1, x)
  {
    E.MembersStep(t, listing, i, x);
    if i + 1 < |listing| { E.MembersStep(t, listing, i + 1, x); }
  }

  lemma MemberIsRead(m: T.Member, y: JsString, v: Json)
    requires ReadValue(T.Print(m.value) + y) == Some((v, y))
    ensures ReadMember(E.MemberThen(m, y)) == Some(((m.key, v), y))
  {
    var value := [58] + (T.Print(m.value) + y);
    QuoteIsRead(m.key, value);
    assert value[1..] == T.Print(m.value) + y;
  }

  lemma MembersReadStep(s: JsString, m: (JsString, Json), rest: JsString)
    requires ReadMember(s) == Some((m, rest)) && rest != []
    ensures rest[0] == 125 ==> ReadMembers(s) == Some(([m], rest[1..]))
    ensures rest[0] == 44 && ReadMembers(rest[1..]).Some? ==>
              ReadMembers(s) == Some(([m] + ReadMembers(rest[1..]).value.0, ReadMembers(rest[1..]).value.1))
  {
  }

  lemma {:induction false} MembersAreRead(t: T.Tree, listing: seq<T.Member>, i: nat, x: JsString)
    requires E.Lists(t, listing) && i < |listing|
    ensures ReadMembers(MembersText(t, listing, i, x)) == Some((MembersData(t, listing, i), x))
    decreases t, 0, |listing| - i
  {
    var rest := T.MembersFrom(t, listing, i + 1) + x;
    var m := listing[i];
    assert m in t.members;
    MembersNext(t, listing, i, x);
    PrintIsRead(m.value, rest);
    MemberIsRead(m, rest, Data(m.value));
    MembersReadStep(MembersText(t, listing, i, x), (m.key, Data(m.value)), rest);
    if i + 1 == |listing| {
      assert rest[1..] == x && MembersData(t, listing, i) == [(m.key, Data(m.value))];
    } else {
      MembersAreRead(t, listing, i + 1, x);
      assert rest[1..] == MembersText(t, listing, i + 1, x);
    }
  }

  lemma BraceIsRead(body: JsString, members: seq<(JsString, Json)>, x: JsString)
    requires if body != [] && body[0] == 125 then members == [] && x == body[1..]
             else ReadMembers(body) == Some((members, x))
    ensures ReadValue([123] + body) == Some((Object(members), x))
  {
    var text := [123] + body;
    assert text[1..] == body && (body != [] ==> text[1] == body[0] && text[2..] == body[1..]);
  }

  lemma ObjectBody(t: T.Tree, listing: seq<T.Member>, x: JsString)
    requires t.Object? && listing == T.Listed(t.members)
    ensures T.Print(t) + x == [123] + (T.MembersFrom(t, listing, 0) + x)
  {
    Regroup([123], T.MembersFrom(t, listing, 0), x);
  }

  lemma FirstMember(t: T.Tree, listing: seq<T.Member>, x: JsString)
    requires E.Lists(t, listing) && |listing| > 0
    ensures T.MembersFrom(t, listing, 0) + x == MembersText(t, listing, 0, x) && MembersText(t, listing, 0, x)[0] != 125
  {
    E.MembersStep(t, listing, 0, x);
    assert [] + MembersText(t, listing, 0, x) == MembersText(t, listing, 0, x);
  }

  lemma ObjectIsRead(t: T.Tree, listing: seq<T.Member>, x: JsString)
    requires t.Object? && listing == T.Listed(t.members)
    requires |listing| > 0 ==> ReadMembers(MembersText(t, listing, 0, x)) == Some((MembersData(t, listing, 0), x))
    ensures ReadValue(T.Print(t) + x) == Some((Data(t), x))
  {
    var body := T.MembersFrom(t, listing, 0) + x;
    ObjectBody(t, listing, x);
    if |listing| == 0 { assert body[1..] == x; } else { FirstMember(t, listing, x); }
    BraceIsRead(body, MembersData(t, listing, 0), x);
  }

  /** Reading a printed tree gives its visible data. */
  lemma ReadUndoesPrint(t: T.Tree)
    ensures Read(T.Print(t)) == Some(Data(t))
  {
    PrintIsRead(t, []);
    assert T.Print(t) + [] == T.Print(t);
  }

  // ------------------------------------------------- the order of own members

  /** The key is the numeral of a number below 2^32 - 1. */
  ghost predicate IsIndexKey(key: JsString) {
    exists k: nat :: k < 4_294_967_295 && key == Decimal(k)
  }

  /** Index keys stand first in ascending order of their numbers, then the other keys by code units. */
  ghost predicate InMemberOrder(keys: seq<JsString>, n: nat) {
    && n <= |keys|
    && (forall i :: 0 <= i < n ==> IsIndexKey(keys[i]))
    && (forall i, j, p: nat, q: nat :: 0 <= i < j < n && keys[i] == Decimal(p) && keys[j] == Decimal(q) ==> p < q)
    && (forall i :: n <= i < |keys| ==> !IsIndexKey(keys[i]))
    && StrictlySorted(keys[n..])
  }

  lemma {:induction false} SelectedKeys(keys: seq<JsString>, indexes: bool)
    requires StrictlySorted(keys)
    ensures StrictlySorted(E.SelectKeys(keys, indexes))
    ensures forall k :: k in E.SelectKeys(keys, indexes) <==> k in keys && T.IsArrayIndex(k) == indexes
  {
    if keys != [] {
      SelectedKeys(keys[1..], indexes);
      assert keys == [keys[0]] + keys[1..];
      var rest := E.SelectKeys(keys[1..], indexes);
      forall i | 0 <= i < |rest| ensures keys[0] != rest[i] && Leq(keys[0], rest[i]) {
        assert rest[i] in keys[1..];
        var m :| 0 <= m < |keys[1..]| && keys[1..][m] == rest[i];
        assert keys[m + 1] == rest[i];
      }
    }
  }

  lemma SortedAreIndexes(keys: seq<JsString>, sorted: seq<JsString>)
    requires multiset(sorted) == multiset(keys) && forall k :: k in keys ==> T.IsArrayIndex(k)
    ensures forall i :: 0 <= i < |sorted| ==> T.IsArrayIndex(sorted[i]) && IsIndexKey(sorted[i])
  {
    forall i | 0 <= i < |sorted| ensures T.IsArrayIndex(sorted[i]) && IsIndexKey(sorted[i]) {
      assert sorted[i] in multiset(sorted);
      assert sorted[i] in keys;
      IndexesAreNumerals(sorted[i]);
    }
  }

  lemma SortedAscend(sorted: seq<JsString>)
    requires Sorted(E.KeyIndexLeq, sorted) && Distinct(sorted)
    requires forall i :: 0 <= i < |sorted| ==> T.IsArrayIndex(sorted[i])
    ensures forall i, j, p: nat, q: nat ::
              0 <= i < j < |sorted| && sorted[i] == Decimal(p) && sorted[j] == Decimal(q) ==> p < q
  {
    forall i, j, p: nat, q: nat | 0 <= i < j < |sorted| && sorted[i] == Decimal(p) && sorted[j] == Decimal(q)
      ensures p < q
    {
      IndexIs(sorted[i], p);
      IndexIs(sorted[j], q);
      assert E.KeyIndexLeq(sorted[i], sorted[j]);
      assert sorted[i] != sorted[j];
    }
  }

  lemma IndexIs(key: JsString, p: nat)
    requires T.IsArrayIndex(key) && key == Decimal(p)
    ensures T.IndexValue(key) == p
  {
    IndexesAreNumerals(key);
    DecimalIsNumeral(p);
    var n: nat :| n < 4_294_967_295 && key == Decimal(n);
    DecimalIsNumeral(n);
  }

  lemma KeyIsNoIndex(key: JsString)
    requires !T.IsArrayIndex(key)
    ensures !IsIndexKey(key)
  {
    IndexesAreNumerals(key);
    forall k: nat | k < 4_294_967_295 ensures key != Decimal(k) {}
  }

  lemma OthersAreNoIndexes(others: seq<JsString>)
    requires forall k :: k in others ==> !T.IsArrayIndex(k)
    ensures forall i :: 0 <= i < |others| ==> !IsIndexKey(others[i])
  {
    forall i | 0 <= i < |others| ensures !IsIndexKey(others[i]) {
      assert others[i] in others;
      KeyIsNoIndex(others[i]);
    }
  }

  lemma JoinInOrder(indexes: seq<JsString>, others: seq<JsString>)
    requires forall i :: 0 <= i < |indexes| ==> IsIndexKey(indexes[i])
    requires forall i, j, p: nat, q: nat ::
               0 <= i < j < |indexes| && indexes[i] == Decimal(p) && indexes[j] == Decimal(q) ==> p < q
    requires (forall i :: 0 <= i < |others| ==> !IsIndexKey(others[i])) && StrictlySorted(others)
    ensures InMemberOrder(indexes + others, |indexes|)
  {
    var keys := indexes + others;
    assert keys[|indexes|..] == others;
    forall i | |indexes| <= i < |keys| ensures !IsIndexKey(keys[i]) { assert keys[i] == others[i - |indexes|]; }
  }

  lemma SortedInOrder(keys: seq<JsString>)
    requires StrictlySorted(keys)
    ensures InMemberOrder(E.ListKeys(keys), |E.SelectKeys(keys, true)|)
  {
    var indexes, others := E.SelectKeys(keys, true), E.SelectKeys(keys, false);
    var sorted := Sort(E.KeyIndexLeq, indexes);
    SelectedKeys(keys, true);
    SelectedKeys(keys, false);
    SortSorts(E.KeyIndexLeq, indexes);
    SortKeepsDistinct(E.KeyIndexLeq, indexes);
    SortedAreIndexes(indexes, sorted);
    SortedAscend(sorted);
    OthersAreNoIndexes(others);
    JoinInOrder(sorted, others);
  }

  /** An object that was assigned its members in code-unit order lists them in member order. */
  lemma MembersInOrder(members: seq<T.Member>)
    requires StrictlySorted(E.Keys(members))
    ensures exists n: nat :: InMemberOrder(E.Keys(T.Listed(members)), n)
    ensures forall m :: m in T.Listed(members) <==> m in members
  {
    E.KeysOfListed(members);
    SortedInOrder(E.Keys(members));
  }
}

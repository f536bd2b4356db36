/** jsonPointer against RFC 6901: decoding of reference tokens and step-by-step lookup. */
module JsonPointer {
  import opened Prelude
  import opened JsText
  import opened JsSplit
  import T = JsonTrees
  import D = Decimals

  const TILDE: CodeUnit := 126
  const SLASH: CodeUnit := 47
  const ZERO: CodeUnit := 48
  const ONE: CodeUnit := 49
  const LENGTH: JsString := Text("length")

  /** JSON values, and what JavaScript may reach beside them: prototypes and functions. */
  datatype Value =
    | Null
    | Bool(value: bool)
    | Number(text: JsString)
    | String(units: JsString)
    | Array(items: seq<Value>)
    | Object(fields: map<JsString, Value>)
    | Foreign(id: nat)

  /** Names that arrays, objects and foreign values answer to beside their own data. */
  datatype Realm = Realm(
    arrayNames: JsString -> Option<Value>, objectNames: JsString -> Option<Value>,
    foreignNames: (nat, JsString) -> Option<Value>)

  // ---------------------------------------------------------------- lookup

  /** The number a canonical array index stands for. */
  function Index(token: JsString): Option<nat> {
    if token != [] && T.IsDigits(token) && (token[0] == ZERO ==> |token| == 1) then Some(T.DecimalValue(token)) else None
  }

  /** Section 4 of RFC 6901: an own member, or an element that exists. */
  function Member(v: Value, token: JsString): Option<Value> {
    match v
    case Object(fields) => if token in fields then Some(fields[token]) else None
    case Array(items) =>
      var i := Index(token);
      if i.Some? && i.value < |items| then Some(items[i.value]) else None
    case _ => None
  }

  /** Names reached by `in` that are not data: `length` of an array, and inherited ones. */
  function Extra(realm: Realm, v: Value, token: JsString): Option<Value> {
    match v
    case Object(_) => realm.objectNames(token)
    case Array(items) => if token == LENGTH then Some(Number(Decimal(|items|))) else realm.arrayNames(token)
    case Foreign(id) => realm.foreignNames(id, token)
    case _ => None
  }

  /** `key in current`, then `current[key]`. */
  function Step(realm: Realm, v: Value, token: JsString): Option<Value> {
    if Member(v, token).Some? then Member(v, token) else Extra(realm, v, token)
  }

  function Walk(realm: Realm, v: Value, tokens: seq<JsString>): Option<Value>
    decreases |tokens|
  {
    if tokens == [] then Some(v)
    else
      var next := Step(realm, v, tokens[0]);
      if next.Some? then Walk(realm, next.value, tokens[1..]) else None
  }

  function Evaluate(v: Value, tokens: seq<JsString>): Option<Value>
    decreases |tokens|
  {
    if tokens == [] then Some(v)
    else
      var next := Member(v, tokens[0]);
      if next.Some? then Evaluate(next.value, tokens[1..]) else None
  }

  /** w is what the tokens name in v: own members by name, elements by the numeral of their position. */
  ghost predicate Names(v: Value, tokens: seq<JsString>, w: Value)
    decreases |tokens|
  {
    if tokens == [] then w == v
    else
      match v
      case Object(fields) => tokens[0] in fields && Names(fields[tokens[0]], tokens[1..], w)
      case Array(items) =>
        exists i: nat :: i < |items| && tokens[0] == Decimal(i) && Names(items[i], tokens[1..], w)
      case _ => false
  }

  /** An array index is the numeral of its value: no sign, no leading zero, nothing else. */
  lemma IndexIsNumeral(token: JsString)
    ensures forall i: nat :: Index(token) == Some(i) <==> token == Decimal(i)
  {
    D.DigitsAre(token);
    if Index(token).Some? {
      D.ValueIsWeight(token);
      D.NumeralIsDecimal(token);
    }
    forall i: nat | token == Decimal(i) ensures Index(token) == Some(i) {
      D.DecimalIsNumeral(i);
      D.ValueIsWeight(token);
    }
  }

  /** Evaluation finds exactly what the tokens name. */
  lemma {:induction false} EvaluatesToWhatIsNamed(v: Value, tokens: seq<JsString>, w: Value)
    ensures Evaluate(v, tokens) == Some(w) <==> Names(v, tokens, w)
    decreases |tokens|
  {
    if tokens != [] {
      IndexIsNumeral(tokens[0]);
      if Member(v, tokens[0]).Some? { EvaluatesToWhatIsNamed(Member(v, tokens[0]).value, tokens[1..], w); }
    }
  }

  /** Some token is not a member of the value reached so far, yet JavaScript finds something there. */
  predicate LeavesData(realm: Realm, v: Value, tokens: seq<JsString>)
    decreases |tokens|
  {
    tokens != [] &&
    if Member(v, tokens[0]).Some? then LeavesData(realm, Member(v, tokens[0]).value, tokens[1..])
    else Extra(realm, v, tokens[0]).Some?
  }

  lemma {:induction false} InTheDataTheyAgree(realm: Realm, v: Value, tokens: seq<JsString>, n: nat)
    requires !LeavesData(realm, v, tokens) && n <= |tokens|
    ensures Walk(realm, v, tokens[..n]) == Evaluate(v, tokens[..n])
    decreases n
  {
    if n > 0 && Member(v, tokens[0]).Some? {
      assert tokens[..n][1..] == tokens[1..][..n - 1];
      InTheDataTheyAgree(realm, Member(v, tokens[0]).value, tokens[1..], n - 1);
    }
  }

  /** After the step that leaves the data the walk has a value and evaluation has none. */
  lemma {:induction false} LeavingSeparates(realm: Realm, v: Value, tokens: seq<JsString>) returns (n: nat)
    requires LeavesData(realm, v, tokens)
    ensures 0 < n <= |tokens| && Walk(realm, v, tokens[..n]).Some? && Evaluate(v, tokens[..n]).None?
    decreases |tokens|
  {
    if Member(v, tokens[0]).Some? {
      var rest := LeavingSeparates(realm, Member(v, tokens[0]).value, tokens[1..]);
      n := rest + 1;
      assert tokens[..n][1..] == tokens[1..][..rest];
    } else {
      n := 1;
      assert tokens[..n][1..] == [];
    }
  }

  /** Step by step the walk is RFC 6901 evaluation exactly when it stays in the data. */
  lemma WalkIsEvaluationExactly(realm: Realm, v: Value, tokens: seq<JsString>)
    ensures (forall n :: 0 <= n <= |tokens| ==> Walk(realm, v, tokens[..n]) == Evaluate(v, tokens[..n]))
       <==> !LeavesData(realm, v, tokens)
  {
    if LeavesData(realm, v, tokens) {
      var n := LeavingSeparates(realm, v, tokens);
      assert Walk(realm, v, tokens[..n]) != Evaluate(v, tokens[..n]);
    } else {
      forall n | 0 <= n <= |tokens| ensures Walk(realm, v, tokens[..n]) == Evaluate(v, tokens[..n]) {
        InTheDataTheyAgree(realm, v, tokens, n);
      }
    }
  }

  /** The last step alone: what evaluation finds the walk finds, and leaving the data it may find more. */
  lemma {:induction false} WalkFindsNoLess(realm: Realm, v: Value, tokens: seq<JsString>)
    ensures LeavesData(realm, v, tokens) ==> Evaluate(v, tokens).None?
    ensures Walk(realm, v, tokens) == Evaluate(v, tokens)
       <==> !(LeavesData(realm, v, tokens) && Walk(realm, v, tokens).Some?)
    decreases |tokens|
  {
    if tokens != [] && Member(v, tokens[0]).Some? {
      WalkFindsNoLess(realm, Member(v, tokens[0]).value, tokens[1..]);
    }
  }

  /** JSON data holds nothing foreign. */
  ghost predicate IsJson(v: Value) {
    match v
    case Array(items) => forall i | 0 <= i < |items| :: IsJson(items[i])
    case Object(fields) => forall k | k in fields :: IsJson(fields[k])
    case Foreign(_) => false
    case _ => true
  }

  /** It is enough that no token is `length` or an inherited name. */
  lemma {:induction false} OrdinaryTokensEvaluate(realm: Realm, v: Value, tokens: seq<JsString>)
    requires IsJson(v)
    requires forall i :: 0 <= i < |tokens| ==>
               tokens[i] != LENGTH && realm.arrayNames(tokens[i]).None? && realm.objectNames(tokens[i]).None?
    ensures Walk(realm, v, tokens) == Evaluate(v, tokens)
    decreases |tokens|
  {
    if tokens != [] && Member(v, tokens[0]).Some? {
      OrdinaryTokensEvaluate(realm, Member(v, tokens[0]).value, tokens[1..]);
    }
  }

  /** An array answers to `length`, which is no member of it. */
  lemma LengthIsNotAMember(realm: Realm)
    ensures Walk(realm, Array([]), [LENGTH]) == Some(Number(Decimal(0)))
    ensures Evaluate(Array([]), [LENGTH]) == None
  {
    assert Walk(realm, Number(Decimal(0)), [LENGTH][1..]) == Some(Number(Decimal(0)));
  }

  // ------------------------------------------------------------------ tokens

  /** `s.replaceAll(ab, u)` for a two-unit pattern. */
  function ReplacePair(s: JsString, a: CodeUnit, b: CodeUnit, u: CodeUnit): JsString
    decreases |s|
  {
    if s == [] then []
    else if |s| >= 2 && s[0] == a && s[1] == b then [u] + ReplacePair(s[2..], a, b, u)
    else [s[0]] + ReplacePair(s[1..], a, b, u)
  }

  /** `raw.replaceAll("~1", "/").replaceAll("~0", "~")` */
  function Unescape(raw: JsString): JsString {
    ReplacePair(ReplacePair(raw, TILDE, ONE, SLASH), TILDE, ZERO, TILDE)
  }

  /** Section 3 of RFC 6901: `~` is written `~0` and `/` is written `~1`. */
  function Escape(token: JsString): JsString {
    if token == [] then []
    else
      (if token[0] == TILDE then [TILDE, ZERO] else if token[0] == SLASH then [TILDE, ONE] else [token[0]])
      + Escape(token[1..])
  }

  /** A token with only its tildes still escaped. */
  function TildesEscaped(token: JsString): JsString {
    if token == [] then []
    else (if token[0] == TILDE then [TILDE, ZERO] else [token[0]]) + TildesEscaped(token[1..])
  }

  lemma PairStep(front: JsString, rest: JsString, a: CodeUnit, b: CodeUnit, u: CodeUnit)
    requires a != b
    ensures front == [a, b] ==> ReplacePair(front + rest, a, b, u) == [u] + ReplacePair(rest, a, b, u)
    ensures |front| == 2 && front[0] == a && front[1] != b && front[1] != a ==>
              ReplacePair(front + rest, a, b, u) == front + ReplacePair(rest, a, b, u)
    ensures |front| == 1 && front[0] != a ==> ReplacePair(front + rest, a, b, u) == front + ReplacePair(rest, a, b, u)
  {
    if |front| == 2 {
      assert (front + rest)[2..] == rest;
      assert (front + rest)[1..] == [front[1]] + rest && ([front[1]] + rest)[1..] == rest;
    } else if |front| == 1 {
      assert (front + rest)[1..] == rest;
    }
  }

  lemma {:induction false} SlashesFirst(token: JsString)
    ensures ReplacePair(Escape(token), TILDE, ONE, SLASH) == TildesEscaped(token)
  {
    if token != [] {
      SlashesFirst(token[1..]);
      var front :=
        if token[0] == TILDE then [TILDE, ZERO] else if token[0] == SLASH then [TILDE, ONE] else [token[0]];
      PairStep(front, Escape(token[1..]), TILDE, ONE, SLASH);
    }
  }

  lemma {:induction false} TildesSecond(token: JsString)
    ensures ReplacePair(TildesEscaped(token), TILDE, ZERO, TILDE) == token
  {
    if token != [] {
      TildesSecond(token[1..]);
      PairStep(if token[0] == TILDE then [TILDE, ZERO] else [token[0]], TildesEscaped(token[1..]), TILDE, ZERO, TILDE);
      assert token == [token[0]] + token[1..];
    }
  }

  /** Unescaping `~1` before `~0` recovers every token. */
  lemma UnescapeUndoesEscape(token: JsString)
    ensures Unescape(Escape(token)) == token
  {
    SlashesFirst(token);
    TildesSecond(token);
  }

  lemma {:induction false} EscapedHasNoSlash(token: JsString)
    ensures SLASH !in Escape(token)
  {
    if token != [] { EscapedHasNoSlash(token[1..]); }
  }

  function Escaped(tokens: seq<JsString>): (r: seq<JsString>)
    ensures |r| == |tokens| && forall i :: 0 <= i < |r| ==> r[i] == Escape(tokens[i])
  {
    seq(|tokens|, i requires 0 <= i < |tokens| => Escape(tokens[i]))
  }

  function Unescaped(raws: seq<JsString>): (r: seq<JsString>)
    ensures |r| == |raws| && forall i :: 0 <= i < |r| ==> r[i] == Unescape(raws[i])
  {
    seq(|raws|, i requires 0 <= i < |raws| => Unescape(raws[i]))
  }

  /** The pointer that names a list of reference tokens. */
  function Pointer(tokens: seq<JsString>): JsString {
    if tokens == [] then [] else [SLASH] + Join(SLASH, Escaped(tokens))
  }

  /** The keys the code looks up. */
  function Keys(pointer: JsString): seq<JsString> {
    if pointer == [] then [] else Unescaped(Split(SLASH, pointer[1..]))
  }

  /** Splitting and unescaping recover the tokens of every encoded list. */
  lemma KeysOfPointer(tokens: seq<JsString>)
    ensures Keys(Pointer(tokens)) == tokens
  {
    if tokens != [] {
      var raws := Escaped(tokens);
      forall i | 0 <= i < |raws| ensures SLASH !in raws[i] { EscapedHasNoSlash(tokens[i]); }
      SplitUndoesJoin(SLASH, raws);
      assert Pointer(tokens)[1..] == Join(SLASH, raws);
      forall i | 0 <= i < |raws| ensures Unescape(raws[i]) == tokens[i] { UnescapeUndoesEscape(tokens[i]); }
    }
  }

  lemma {:induction false} EscapeConcat(a: JsString, b: JsString)
    ensures Escape(a + b) == Escape(a) + Escape(b)
  {
    if a == [] {
      assert a + b == b;
    } else {
      assert (a + b)[1..] == a[1..] + b;
      EscapeConcat(a[1..], b);
    }
  }

  lemma {:induction false} PlainEscape(s: JsString)
    requires 126 !in s && 47 !in s
    ensures Escape(s) == s
  {
    if s != [] {
      assert s == [s[0]] + s[1..] && s[0] in s;
      PlainEscape(s[1..]);
    }
  }

  /** A tilde or a slash between plain texts is written as its escape. */
  lemma OneSpecialUnit(front: JsString, u: CodeUnit, back: JsString)
    requires 126 !in front && 47 !in front && 126 !in back && 47 !in back && (u == 126 || u == 47)
    ensures Keys([47] + (front + ([126, if u == 126 then 48 else 49] + back))) == [front + ([u] + back)]
  {
    var token := front + ([u] + back);
    EscapeConcat(front, [u] + back);
    EscapeConcat([u], back);
    PlainEscape(front);
    PlainEscape(back);
    assert Escape([u]) == [126, if u == 126 then 48 else 49] by { assert [u][1..] == []; }
    KeysOfPointer([token]);
    assert Escaped([token]) == [Escape(token)];
  }

  lemma PlainTokens(first: JsString, second: JsString)
    requires 126 !in first && 47 !in first && 126 !in second && 47 !in second
    ensures Keys([47] + (first + ([47] + second))) == [first, second]
  {
    PlainEscape(first);
    PlainEscape(second);
    KeysOfPointer([first, second]);
    assert Escaped([first, second]) == [first, second];
    assert Join(SLASH, [second]) == second;
  }

  /** Pointers of section 5 of RFC 6901: `/`, `/foo/0`, `/a~1b`, `/m~0n`; and section 4's `~01`. */
  lemma ReferencePointers()
    ensures Keys([]) == [] && Keys([47]) == [[]]
    ensures Keys([47, 102, 111, 111, 47, 48]) == [[102, 111, 111], [48]]
    ensures Keys([47, 97, 126, 49, 98]) == [[97, 47, 98]]
    ensures Keys([47, 109, 126, 48, 110]) == [[109, 126, 110]]
    ensures Keys([47, 126, 48, 49]) == [[126, 49]]
  {
    KeysOfPointer([[]]);
    assert Pointer([[]]) == [47];
    PlainTokens([102, 111, 111], [48]);
    assert [47, 102, 111, 111, 47, 48] == [47] + ([102, 111, 111] + ([47] + [48]));
    OneSpecialUnit([97], 47, [98]);
    assert [47, 97, 126, 49, 98] == [47] + ([97] + ([126, 49] + [98])) && [97, 47, 98] == [97] + ([47] + [98]);
    OneSpecialUnit([109], 126, [110]);
    assert [47, 109, 126, 48, 110] == [47] + ([109] + ([126, 48] + [110])) && [109, 126, 110] == [109] + ([126] + [110]);
    OneSpecialUnit([], 126, [49]);
    assert [47, 126, 48, 49] == [47] + ([] + ([126, 48] + [49])) && [126, 49] == [] + ([126] + [49]);
  }

  // -------------------------------------------------------- valid pointers

  /** Every `~` is followed by `0` or `1`. */
  predicate WellEscaped(raw: JsString)
    decreases |raw|
  {
    raw == [] ||
    if raw[0] == TILDE then |raw| >= 2 && (raw[1] == ZERO || raw[1] == ONE) && WellEscaped(raw[2..])
    else WellEscaped(raw[1..])
  }

  /** Reading a token in one pass. */
  function Decode(raw: JsString): JsString
    requires WellEscaped(raw)
    decreases |raw|
  {
    if raw == [] then []
    else if raw[0] == TILDE then [if raw[1] == ZERO then TILDE else SLASH] + Decode(raw[2..])
    else [raw[0]] + Decode(raw[1..])
  }

  lemma {:induction false} EscapeUndoesDecode(raw: JsString)
    requires WellEscaped(raw) && SLASH !in raw
    ensures Escape(Decode(raw)) == raw
    decreases |raw|
  {
    if raw != [] {
      if raw[0] == TILDE {
        assert raw == raw[..2] + raw[2..];
        EscapeUndoesDecode(raw[2..]);
      } else {
        assert raw[0] in raw;
        assert raw == [raw[0]] + raw[1..];
        EscapeUndoesDecode(raw[1..]);
      }
    }
  }

  /** On a well-escaped token the two replacements read it as one pass does. */
  lemma TwoPassesAreOne(raw: JsString)
    requires WellEscaped(raw) && SLASH !in raw
    ensures Unescape(raw) == Decode(raw)
  {
    EscapeUndoesDecode(raw);
    UnescapeUndoesEscape(Decode(raw));
  }

  lemma {:induction false} PiecesHaveNoSlash(piece: JsString, s: JsString)
    requires SLASH !in piece
    ensures forall i :: 0 <= i < |SplitAfter(SLASH, piece, s)| ==> SLASH !in SplitAfter(SLASH, piece, s)[i]
    decreases |s|
  {
    if s != [] {
      if s[0] == SLASH { PiecesHaveNoSlash([], s[1..]); } else { PiecesHaveNoSlash(piece + [s[0]], s[1..]); }
    }
  }

  /** Every pointer that RFC 6901 admits is the encoding of the tokens the code reads from it. */
  lemma ValidPointersAreEncodings(pointer: JsString)
    requires pointer != [] ==> pointer[0] == SLASH
    requires pointer != [] ==>
               forall i :: 0 <= i < |Split(SLASH, pointer[1..])| ==> WellEscaped(Split(SLASH, pointer[1..])[i])
    ensures Pointer(Keys(pointer)) == pointer
  {
    if pointer != [] {
      var raws := Split(SLASH, pointer[1..]);
      PiecesHaveNoSlash([], pointer[1..]);
      forall i | 0 <= i < |raws| ensures Escape(Unescape(raws[i])) == raws[i] {
        TwoPassesAreOne(raws[i]);
        EscapeUndoesDecode(raws[i]);
      }
      assert Escaped(Keys(pointer)) == raws;
      JoinUndoesSplit(SLASH, pointer[1..]);
      assert pointer == [SLASH] + pointer[1..];
    }
  }

  // --------------------------------------------------------------- the loop

  /** None is `undefined`. */
  method Resolve(realm: Realm, value: Value, pointer: JsString) returns (found: Option<Value>)
    ensures found == Walk(realm, value, Keys(pointer))
    ensures !LeavesData(realm, value, Keys(pointer)) ==> forall w :: found == Some(w) <==> Names(value, Keys(pointer), w)
  {
    forall w ensures Evaluate(value, Keys(pointer)) == Some(w) <==> Names(value, Keys(pointer), w) {
      EvaluatesToWhatIsNamed(value, Keys(pointer), w);
    }
    WalkFindsNoLess(realm, value, Keys(pointer));
    if pointer == [] { return Some(value); }
    var current := value;
    var raws := Split(SLASH, pointer[1..]);
    ghost var keys := Keys(pointer);
    assert keys[0..] == keys;
    var i := 0;
    while i < |raws|
      invariant i <= |raws| == |keys|
      invariant Walk(realm, current, keys[i..]) == Walk(realm, value, keys)
    {
      var key := Unescape(raws[i]);
      assert keys[i..][0] == key && keys[i..][1..] == keys[i + 1..];
      var next := Step(realm, current, key);
      if next.None? { return None; }
      current := next.value;
      i := i + 1;
    }
    return Some(current);
  }

  /**
   * Resolving the encodings of a token list and of its prefixes is evaluating them exactly when no step leaves
   * the data.
   */
  lemma ResolvesTokens(realm: Realm, value: Value, tokens: seq<JsString>)
    ensures Walk(realm, value, Keys(Pointer(tokens))) == Walk(realm, value, tokens)
    ensures (forall n :: 0 <= n <= |tokens| ==>
               Walk(realm, value, Keys(Pointer(tokens[..n]))) == Evaluate(value, tokens[..n]))
       <==> !LeavesData(realm, value, tokens)
    ensures !LeavesData(realm, value, tokens) ==> Walk(realm, value, Keys(Pointer(tokens))) == Evaluate(value, tokens)
  {
    KeysOfPointer(tokens);
    forall n | 0 <= n <= |tokens|
      ensures Walk(realm, value, Keys(Pointer(tokens[..n]))) == Walk(realm, value, tokens[..n])
    {
      KeysOfPointer(tokens[..n]);
    }
    WalkIsEvaluationExactly(realm, value, tokens);
    WalkFindsNoLess(realm, value, tokens);
  }
}

/** Durable evidence ids: an exact UTF-16 hex codec, and ids that determine what they name. */
module EvidenceIds {
  import opened Prelude
  import opened JsText
  import opened JsSplit
  import Hex

  const COLON: CodeUnit := 58
  const DASH: CodeUnit := 45
  const ORATLAS: JsString := Text("oratlas")
  const V1: JsString := Text("v1")
  const CLAIM: JsString := Text("claim")
  const CITATION: JsString := Text("citation")

  // ------------------------------------------------------------------- codec

  function Encode(value: JsString): JsString {
    if value == [] then [] else Encode(value[..|value| - 1]) + Hex.Four(value[|value| - 1])
  }

  /** `/^(?:[0-9a-f]{4})*$/` */
  predicate Accepted(encoded: JsString) {
    |encoded| % 4 == 0 && forall i :: 0 <= i < |encoded| ==> Hex.DigitValue(encoded[i]).Some?
  }

  function Decode(encoded: JsString): JsString
    requires Accepted(encoded)
    decreases |encoded|
  {
    if encoded == [] then []
    else Decode(encoded[..|encoded| - 4]) + [Hex.Value(encoded[|encoded| - 4..])]
  }

  /** `0123456789abcdef` */
  const HEX: JsString := [48, 49, 50, 51, 52, 53, 54, 55, 56, 57, 97, 98, 99, 100, 101, 102]

  /** The four hexadecimal digits of a unit, the most significant first. */
  ghost predicate Spells(e: JsString, u: CodeUnit) {
    exists a: nat, b: nat, c: nat, d: nat | a < 16 && b < 16 && c < 16 && d < 16 ::
      u == 4096 * a + 256 * b + 16 * c + d && e == [HEX[a], HEX[b], HEX[c], HEX[d]]
  }

  /** The text spells the units of the value one after the other. */
  ghost predicate SpellsAll(encoded: JsString, value: JsString) {
    |encoded| == 4 * |value| && forall k :: 0 <= k < |value| ==> Spells(encoded[4 * k..4 * k + 4], value[k])
  }

  ghost predicate IsHex(encoded: JsString) {
    forall i :: 0 <= i < |encoded| ==> encoded[i] in HEX
  }

  lemma DigitIs(n: nat)
    requires n < 16
    ensures Hex.Digit(n) == HEX[n]
  {
  }

  lemma FourSpells(u: CodeUnit)
    ensures Spells(Hex.Four(u), u)
  {
    var a, b, c, d := u / 4096, u / 256 % 16, u / 16 % 16, u % 16;
    Hex.Recomposed(u);
    DigitIs(a);
    DigitIs(b);
    DigitIs(c);
    DigitIs(d);
  }

  lemma SpellsSnoc(encoded: JsString, value: JsString, e: JsString, u: CodeUnit)
    requires SpellsAll(encoded, value) && |e| == 4 && Spells(e, u)
    ensures SpellsAll(encoded + e, value + [u])
  {
    forall k | 0 <= k < |value| + 1 ensures Spells((encoded + e)[4 * k..4 * k + 4], (value + [u])[k]) {
      if k < |value| {
        assert (encoded + e)[4 * k..4 * k + 4] == encoded[4 * k..4 * k + 4];
      } else {
        assert (encoded + e)[4 * k..4 * k + 4] == e;
      }
    }
  }

  lemma {:induction false} EncodeSpells(value: JsString)
    ensures SpellsAll(Encode(value), value)
  {
    if value != [] {
      var front, last := value[..|value| - 1], value[|value| - 1];
      EncodeSpells(front);
      FourSpells(last);
      SpellsSnoc(Encode(front), front, Hex.Four(last), last);
      assert value == front + [last];
    }
  }

  lemma AcceptedIs(encoded: JsString)
    ensures Accepted(encoded) <==> |encoded| % 4 == 0 && IsHex(encoded)
  {
    forall u: CodeUnit ensures Hex.DigitValue(u).Some? <==> u in HEX { DigitsAreHex(u); }
  }

  lemma DigitsAreHex(u: CodeUnit)
    ensures Hex.DigitValue(u).Some? <==> u in HEX
  {
  }

  method EncodeUtf16Component(value: JsString) returns (encoded: JsString)
    ensures encoded == Encode(value)
    ensures SpellsAll(encoded, value)
  {
    EncodeSpells(value);
    encoded := [];
    var index := 0;
    while index < |value|
      invariant index <= |value| && encoded == Encode(value[..index])
    {
      assert value[..index + 1][..index] == value[..index];
      encoded := encoded + Hex.Four(value[index]);
      index := index + 1;
    }
    assert value[..index] == value;
  }

  /** Text that is no spelling is refused, and any other is decoded to what it spells. */
  ghost predicate IsDecoding(decoded: Option<JsString>, encoded: JsString) {
    && (decoded.Some? <==> |encoded| % 4 == 0 && IsHex(encoded))
    && (decoded.Some? ==> SpellsAll(encoded, decoded.value))
  }

  lemma DecodingIs(encoded: JsString)
    ensures IsDecoding(if Accepted(encoded) then Some(Decode(encoded)) else None, encoded)
  {
    AcceptedIs(encoded);
    if Accepted(encoded) {
      EncodeUndoesDecode(encoded);
      EncodeSpells(Decode(encoded));
    }
  }

  /** None is the thrown error. */
  method DecodeUtf16Component(encoded: JsString) returns (decoded: Option<JsString>)
    ensures decoded == if Accepted(encoded) then Some(Decode(encoded)) else None
    ensures IsDecoding(decoded, encoded)
  {
    if !Accepted(encoded) {
      DecodingIs(encoded);
      return None;
    }
    var units: JsString := [];
    var index := 0;
    while index < |encoded|
      invariant index <= |encoded| && index % 4 == 0 && Accepted(encoded[..index]) && units == Decode(encoded[..index])
    {
      assert encoded[..index + 4] == encoded[..index] + encoded[index..index + 4];
      AcceptedSnoc(encoded[..index], encoded[index..index + 4]);
      units := units + [Hex.Value(encoded[index..index + 4])];
      index := index + 4;
    }
    assert encoded[..index] == encoded;
    DecodingIs(encoded);
    return Some(units);
  }

  lemma AcceptedSnoc(front: JsString, last: JsString)
    requires Accepted(front) && Hex.IsFour(last)
    ensures Accepted(front + last) && Decode(front + last) == Decode(front) + [Hex.Value(last)]
  {
    var e := front + last;
    assert forall i :: 0 <= i < 4 ==> e[|front| + i] == last[i];
    assert forall i :: 0 <= i < |e| ==> e[i] == if i < |front| then front[i] else last[i - |front|];
    assert e[..|e| - 4] == front && e[|e| - 4..] == last;
  }

  /** Decoding undoes encoding, for every string, well formed or not. */
  lemma {:induction false} DecodeUndoesEncode(value: JsString)
    ensures Accepted(Encode(value)) && Decode(Encode(value)) == value
  {
    if value != [] {
      var front, last := value[..|value| - 1], value[|value| - 1];
      DecodeUndoesEncode(front);
      Hex.ValueOfFour(last);
      AcceptedSnoc(Encode(front), Hex.Four(last));
      assert value == front + [last];
    }
  }

  /** Encoding undoes decoding, for every accepted text: there is one spelling of each string. */
  lemma {:induction false} EncodeUndoesDecode(encoded: JsString)
    requires Accepted(encoded)
    ensures Encode(Decode(encoded)) == encoded
    decreases |encoded|
  {
    if encoded != [] {
      var front, last := encoded[..|encoded| - 4], encoded[|encoded| - 4..];
      EncodeUndoesDecode(front);
      Hex.FourOfValue(last);
      var d := Decode(encoded);
      assert d[..|d| - 1] == Decode(front) && d[|d| - 1] == Hex.Value(last);
      assert encoded == front + last;
    }
  }

  lemma EncodeIsInjective(a: JsString, b: JsString)
    requires Encode(a) == Encode(b)
    ensures a == b
  {
    DecodeUndoesEncode(a);
    DecodeUndoesEncode(b);
  }

  lemma EncodedHasNoSeparator(value: JsString)
    ensures COLON !in Encode(value) && DASH !in Encode(value)
  {
    DecodeUndoesEncode(value);
    var e := Encode(value);
    assert forall i :: 0 <= i < |e| ==> Hex.DigitValue(e[i]).Some? && e[i] != COLON && e[i] != DASH;
  }

  // --------------------------------------------------------------------- ids

  /** `oratlas:${kind}:v1:${…}:${…}` */
  function ScopedEvidenceId(kind: JsString, reviewVersionId: JsString, localId: JsString): JsString {
    ORATLAS + ([COLON] + (kind + ([COLON] + (V1 + ([COLON] + (Encode(reviewVersionId) + ([COLON] + Encode(localId))))))))
  }

  function GlobalClaimId(reviewVersionId: JsString, localClaimId: JsString): JsString {
    ScopedEvidenceId(CLAIM, reviewVersionId, localClaimId)
  }

  function GlobalCitationId(reviewVersionId: JsString, localCitationId: JsString): JsString {
    ScopedEvidenceId(CITATION, reviewVersionId, localCitationId)
  }

  /** `oratlas-claim-v1-${…}-${…}` */
  function ClaimDomAnchor(reviewVersionId: JsString, localClaimId: JsString): JsString {
    ORATLAS + ([DASH] + (CLAIM + ([DASH] + (V1 + ([DASH]
    + (Encode(reviewVersionId) + ([DASH] + Encode(localClaimId))))))))
  }

  lemma FixedPartsAreFree()
    ensures COLON !in ORATLAS && COLON !in V1 && COLON !in CLAIM && COLON !in CITATION
    ensures DASH !in ORATLAS && DASH !in V1 && DASH !in CLAIM
    ensures CLAIM != CITATION
  {
    assert ORATLAS == [111, 114, 97, 116, 108, 97, 115] && V1 == [118, 49];
    assert CLAIM == [99, 108, 97, 105, 109] && CITATION == [99, 105, 116, 97, 116, 105, 111, 110];
  }

  lemma TakesFront(a: JsString, s: CodeUnit, b: JsString, c: JsString, x: JsString, y: JsString)
    ensures a + ([s] + (b + ([s] + (c + ([s] + (x + ([s] + y)))))))
         == (a + ([s] + (b + ([s] + (c + [s]))))) + x + [s] + y
  {
  }

  lemma FrontsAre()
    ensures ORATLAS + ([COLON] + (CLAIM + ([COLON] + (V1 + [COLON])))) == Text("oratlas:claim:v1:")
    ensures ORATLAS + ([COLON] + (CITATION + ([COLON] + (V1 + [COLON])))) == Text("oratlas:citation:v1:")
    ensures ORATLAS + ([DASH] + (CLAIM + ([DASH] + (V1 + [DASH])))) == Text("oratlas-claim-v1-")
  {
  }

  /** The ids, written out. */
  lemma IdsAre(version: JsString, local: JsString)
    ensures GlobalClaimId(version, local) == Text("oratlas:claim:v1:") + Encode(version) + [58] + Encode(local)
    ensures GlobalCitationId(version, local) == Text("oratlas:citation:v1:") + Encode(version) + [58] + Encode(local)
    ensures ClaimDomAnchor(version, local) == Text("oratlas-claim-v1-") + Encode(version) + [45] + Encode(local)
  {
    FrontsAre();
    TakesFront(ORATLAS, COLON, CLAIM, V1, Encode(version), Encode(local));
    TakesFront(ORATLAS, COLON, CITATION, V1, Encode(version), Encode(local));
    TakesFront(ORATLAS, DASH, CLAIM, V1, Encode(version), Encode(local));
  }

  lemma FivePieces(sep: CodeUnit, a: JsString, b: JsString, c: JsString, d: JsString, e: JsString)
    ensures Join(sep, [a, b, c, d, e])
         == a + ([sep] + (b + ([sep] + (c + ([sep] + (d + ([sep] + e)))))))
  {
    assert [d, e][1..] == [e] && [c, d, e][1..] == [d, e];
    assert [b, c, d, e][1..] == [c, d, e] && [a, b, c, d, e][1..] == [b, c, d, e];
    assert Join(sep, [d, e]) == d + ([sep] + e);
    assert Join(sep, [c, d, e]) == c + ([sep] + Join(sep, [d, e]));
    assert Join(sep, [b, c, d, e]) == b + ([sep] + Join(sep, [c, d, e]));
  }

  /** An id splits back into its kind and its two encoded parts. */
  lemma IdPieces(kind: JsString, reviewVersionId: JsString, localId: JsString)
    requires COLON !in kind
    ensures Split(COLON, ScopedEvidenceId(kind, reviewVersionId, localId))
         == [ORATLAS, kind, V1, Encode(reviewVersionId), Encode(localId)]
  {
    FixedPartsAreFree();
    EncodedHasNoSeparator(reviewVersionId);
    EncodedHasNoSeparator(localId);
    FivePieces(COLON, ORATLAS, kind, V1, Encode(reviewVersionId), Encode(localId));
    SplitUndoesJoin(COLON, [ORATLAS, kind, V1, Encode(reviewVersionId), Encode(localId)]);
  }

  /** Equal ids have the same kind, version and local id. */
  lemma ScopedIdsDetermine(k1: JsString, v1: JsString, l1: JsString, k2: JsString, v2: JsString, l2: JsString)
    requires COLON !in k1 && COLON !in k2
    requires ScopedEvidenceId(k1, v1, l1) == ScopedEvidenceId(k2, v2, l2)
    ensures k1 == k2 && v1 == v2 && l1 == l2
  {
    IdPieces(k1, v1, l1);
    IdPieces(k2, v2, l2);
    var p, q := [ORATLAS, k1, V1, Encode(v1), Encode(l1)], [ORATLAS, k2, V1, Encode(v2), Encode(l2)];
    assert p[1] == q[1] && p[3] == q[3] && p[4] == q[4];
    EncodeIsInjective(v1, v2);
    EncodeIsInjective(l1, l2);
  }

  lemma ClaimIdsDetermine(v1: JsString, l1: JsString, v2: JsString, l2: JsString)
    ensures GlobalClaimId(v1, l1) == GlobalClaimId(v2, l2) <==> v1 == v2 && l1 == l2
    ensures GlobalCitationId(v1, l1) == GlobalCitationId(v2, l2) <==> v1 == v2 && l1 == l2
    ensures GlobalClaimId(v1, l1) != GlobalCitationId(v2, l2)
  {
    FixedPartsAreFree();
    if GlobalClaimId(v1, l1) == GlobalClaimId(v2, l2) { ScopedIdsDetermine(CLAIM, v1, l1, CLAIM, v2, l2); }
    if GlobalCitationId(v1, l1) == GlobalCitationId(v2, l2) { ScopedIdsDetermine(CITATION, v1, l1, CITATION, v2, l2); }
    if GlobalClaimId(v1, l1) == GlobalCitationId(v2, l2) { ScopedIdsDetermine(CLAIM, v1, l1, CITATION, v2, l2); }
  }

  /** DOM anchors of claims do not collide. */
  lemma AnchorsDetermine(v1: JsString, l1: JsString, v2: JsString, l2: JsString)
    ensures ClaimDomAnchor(v1, l1) == ClaimDomAnchor(v2, l2) <==> v1 == v2 && l1 == l2
  {
    FixedPartsAreFree();
    AnchorPieces(v1, l1);
    AnchorPieces(v2, l2);
    var p, q := [ORATLAS, CLAIM, V1, Encode(v1), Encode(l1)], [ORATLAS, CLAIM, V1, Encode(v2), Encode(l2)];
    if ClaimDomAnchor(v1, l1) == ClaimDomAnchor(v2, l2) {
      assert p[3] == q[3] && p[4] == q[4];
      EncodeIsInjective(v1, v2);
      EncodeIsInjective(l1, l2);
    }
  }

  lemma AnchorPieces(v: JsString, l: JsString)
    ensures Split(DASH, ClaimDomAnchor(v, l)) == [ORATLAS, CLAIM, V1, Encode(v), Encode(l)]
  {
    FixedPartsAreFree();
    EncodedHasNoSeparator(v);
    EncodedHasNoSeparator(l);
    FivePieces(DASH, ORATLAS, CLAIM, V1, Encode(v), Encode(l));
    SplitUndoesJoin(DASH, [ORATLAS, CLAIM, V1, Encode(v), Encode(l)]);
  }
}

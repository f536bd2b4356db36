/**
 * nativeEvidenceProblems: a budgeted worklist over everything a captured value
 * contains, including JSON inside strings and base64 bodies. `AuditOf` adds up
 * the same contents by plain recursion; the worklist is proved against it.
 */
module NativeEvidence {
  import opened Prelude
  import opened JsText
  import opened JsonText

  type Ref = nat

  /** `Other` is a number, boolean, null or undefined. */
  datatype Value = Str(text: JsString) | Object(ref: Ref) | Other

  /**
   * The calls this model does not define: Object.entries, JSON.parse (None when
   * it throws), base64 decoding and workerOutputProblems.
   */
  datatype World = World(
    entries: Ref -> seq<(JsString, Value)>,
    parse: JsString -> Option<Value>,
    decode: JsString -> JsString,
    flagged: JsString -> bool)

  datatype Entry = Entry(value: Value, depth: nat)

  datatype Verdict = Clean | BoundRefused | DisclosureRefused

  datatype Scope = ValueScope | CaptureScope | OtherScope

  const VALUE_ENTRY_LIMIT: nat := 250_000
  const NATIVE_CAPTURE_ENTRY_LIMIT: nat := 1_000_000
  const MAX_DEPTH: nat := 64
  const MAX_STRING_BYTES: nat := 16 * 1024 * 1024
  const MAX_TOTAL_BYTES: nat := 64 * 1024 * 1024
  const BODY_KEY: JsString := Text("bodyBase64")

  // -------------------------------------------------------------- inspection

  /** Bytes of the UTF-8 encoding; a lone surrogate becomes U+FFFD. */
  function ByteLength(s: JsString): nat {
    if s == [] then 0
    else if StartsWithPair(s) then 4 + ByteLength(s[2..])
    else (if s[0] < 0x80 then 1 else if s[0] < 0x800 then 2 else 3) + ByteLength(s[1..])
  }

  predicate OccursAt(text: JsString, part: JsString, i: nat) {
    i + |part| <= |text| && text[i..i + |part|] == part
  }

  predicate Includes(text: JsString, part: JsString) {
    exists i | 0 <= i <= |text| :: OccursAt(text, part, i)
  }

  /** Each non-empty secret, as it is and as JSON escapes it. */
  function Representations(secrets: seq<JsString>): seq<JsString> {
    if secrets == [] then []
    else (if secrets[0] != [] then [secrets[0], Escape(secrets[0])] else []) + Representations(secrets[1..])
  }

  ghost predicate Represents(s: JsString, x: JsString) {
    s != [] && (x == s || x == Escape(s))
  }

  lemma {:induction false} RepresentationsAre(secrets: seq<JsString>, x: JsString)
    ensures x in Representations(secrets) <==> exists s :: s in secrets && Represents(s, x)
  {
    if secrets != [] {
      var rest := secrets[1..];
      RepresentationsAre(rest, x);
      assert secrets == [secrets[0]] + rest;
      if exists s :: s in secrets && Represents(s, x) {
        var s :| s in secrets && Represents(s, x);
        assert s == secrets[0] || s in rest;
      }
      if exists s :: s in rest && Represents(s, x) {
        var s :| s in rest && Represents(s, x);
        assert s in secrets;
      }
      assert Represents(secrets[0], x) ==> secrets[0] in secrets;
    }
  }

  predicate Discloses(world: World, representations: seq<JsString>, text: JsString) {
    world.flagged(text) || exists r :: r in representations && Includes(text, r)
  }

  /** What inspecting an entry schedules, in the order it is pushed. */
  function Contents(world: World, e: Entry): seq<Entry> {
    match e.value
    case Str(text) => (match world.parse(text) case Some(v) => [Entry(v, e.depth + 1)] case None => [])
    case Object(ref) => MemberContents(world, world.entries(ref), e.depth + 1)
    case Other => []
  }

  function MemberContents(world: World, members: seq<(JsString, Value)>, depth: nat): seq<Entry> {
    if members == [] then []
    else
      MemberContents(world, members[..|members| - 1], depth) + OneMember(world, members[|members| - 1], depth)
  }

  function OneMember(world: World, member: (JsString, Value), depth: nat): seq<Entry> {
    [Entry(Str(member.0), depth), Entry(member.1, depth)]
    + if member.0 == BODY_KEY && member.1.Str? then [Entry(Str(world.decode(member.1.text)), depth)] else []
  }

  // -------------------------------------------------------------- the whole

  /** Entries, string bytes, and whether nothing was too deep, too long or disclosing. */
  datatype Audit = Audit(entries: nat, bytes: nat, clean: bool) {
    function Plus(other: Audit): Audit {
      Audit(entries + other.entries, bytes + other.bytes, clean && other.clean)
    }
  }

  function OwnAudit(world: World, representations: seq<JsString>, e: Entry): Audit {
    match e.value
    case Str(text) =>
      Audit(1, ByteLength(text),
            e.depth <= MAX_DEPTH && ByteLength(text) <= MAX_STRING_BYTES && !Discloses(world, representations, text))
    case _ => Audit(1, 0, e.depth <= MAX_DEPTH)
  }

  /** Everything an entry unfolds to, down to the given number of levels below it. */
  function AuditWithin(world: World, representations: seq<JsString>, levels: nat, e: Entry): Audit
    decreases levels, 0
  {
    if levels == 0 then OwnAudit(world, representations, e)
    else
      OwnAudit(world, representations, e)
      .Plus(AuditContents(world, representations, levels - 1, Contents(world, e)))
  }

  function AuditContents(world: World, representations: seq<JsString>, levels: nat, es: seq<Entry>): Audit
    decreases levels, |es|
  {
    if es == [] then Audit(0, 0, true)
    else
      AuditContents(world, representations, levels, es[..|es| - 1])
      .Plus(AuditWithin(world, representations, levels, es[|es| - 1]))
  }

  /** Everything an entry unfolds to; what is too deep is counted but not opened. */
  function AuditOf(world: World, representations: seq<JsString>, e: Entry): Audit {
    AuditWithin(world, representations, if e.depth <= MAX_DEPTH then MAX_DEPTH + 1 - e.depth else 0, e)
  }

  function AuditAll(world: World, representations: seq<JsString>, es: seq<Entry>): Audit {
    if es == [] then Audit(0, 0, true)
    else AuditAll(world, representations, es[..|es| - 1]).Plus(AuditOf(world, representations, es[|es| - 1]))
  }

  /** Within every budget, and nothing disclosing anywhere. */
  predicate Acceptable(total: Audit, limit: nat) {
    total.clean && total.entries <= limit && total.bytes <= MAX_TOTAL_BYTES
  }

  lemma {:induction false} AuditContentsAll(world: World, representations: seq<JsString>, levels: nat, es: seq<Entry>)
    requires levels <= MAX_DEPTH && forall x :: x in es ==> x.depth == MAX_DEPTH + 1 - levels
    ensures AuditContents(world, representations, levels, es) == AuditAll(world, representations, es)
    decreases |es|
  {
    if es != [] {
      assert es[|es| - 1] in es;
      AuditContentsAll(world, representations, levels, es[..|es| - 1]);
    }
  }

  lemma AuditStep(world: World, representations: seq<JsString>, levels: nat, e: Entry)
    ensures AuditWithin(world, representations, levels + 1, e)
         == OwnAudit(world, representations, e).Plus(AuditContents(world, representations, levels, Contents(world, e)))
  {
  }

  lemma {:induction false} MembersDepth(world: World, members: seq<(JsString, Value)>, depth: nat)
    ensures forall x :: x in MemberContents(world, members, depth) ==> x.depth == depth
  {
    if members != [] { MembersDepth(world, members[..|members| - 1], depth); }
  }

  lemma ContentsDepth(world: World, e: Entry)
    ensures forall x :: x in Contents(world, e) ==> x.depth == e.depth + 1
  {
    if e.value.Object? { MembersDepth(world, world.entries(e.value.ref), e.depth + 1); }
  }

  lemma AuditUnfolds(world: World, representations: seq<JsString>, e: Entry)
    requires e.depth <= MAX_DEPTH
    ensures AuditOf(world, representations, e)
         == OwnAudit(world, representations, e).Plus(AuditAll(world, representations, Contents(world, e)))
  {
    var levels := MAX_DEPTH - e.depth;
    AuditStep(world, representations, levels, e);
    ContentsDepth(world, e);
    AuditContentsAll(world, representations, levels, Contents(world, e));
  }

  lemma AuditSnoc(world: World, representations: seq<JsString>, es: seq<Entry>, e: Entry)
    ensures AuditAll(world, representations, es + [e])
         == AuditAll(world, representations, es).Plus(AuditOf(world, representations, e))
  {
    assert (es + [e])[..|es + [e]| - 1] == es;
  }

  lemma {:induction false} AuditConcat(world: World, representations: seq<JsString>, a: seq<Entry>, b: seq<Entry>)
    ensures AuditAll(world, representations, a + b)
         == AuditAll(world, representations, a).Plus(AuditAll(world, representations, b))
    decreases |b|
  {
    if b == [] {
      assert a + b == a;
    } else {
      var rest, last := b[..|b| - 1], b[|b| - 1];
      assert a + b == (a + rest) + [last] && b == rest + [last];
      AuditSnoc(world, representations, a + rest, last);
      AuditSnoc(world, representations, rest, last);
      AuditConcat(world, representations, a, rest);
    }
  }

  /** Every entry counts. */
  lemma {:induction false} AuditCounts(world: World, representations: seq<JsString>, es: seq<Entry>)
    ensures AuditAll(world, representations, es).entries >= |es|
  {
    if es != [] {
      var rest, last := es[..|es| - 1], es[|es| - 1];
      AuditCounts(world, representations, rest);
      AuditSnoc(world, representations, rest, last);
      assert es == rest + [last];
    }
  }

  /** One bad entry spoils the whole. */
  lemma {:induction false} AuditCleanAt(world: World, representations: seq<JsString>, es: seq<Entry>, i: nat)
    requires i < |es| && AuditAll(world, representations, es).clean
    ensures AuditOf(world, representations, es[i]).clean
  {
    var rest, last := es[..|es| - 1], es[|es| - 1];
    assert es == rest + [last];
    AuditSnoc(world, representations, rest, last);
    if i < |rest| { AuditCleanAt(world, representations, rest, i); }
  }

  lemma MembersSnoc(world: World, members: seq<(JsString, Value)>, i: nat, depth: nat)
    requires i < |members|
    ensures MemberContents(world, members[..i + 1], depth)
         == MemberContents(world, members[..i], depth) + OneMember(world, members[i], depth)
  {
    assert members[..i + 1][..i] == members[..i];
  }

  lemma {:induction false} MembersInOrder(world: World, members: seq<(JsString, Value)>, i: nat, depth: nat)
    requires i <= |members|
    ensures MemberContents(world, members[..i], depth) <= MemberContents(world, members, depth)
    decreases |members| - i
  {
    if i < |members| {
      MembersSnoc(world, members, i, depth);
      MembersInOrder(world, members, i + 1, depth);
    } else {
      assert members[..i] == members;
    }
  }

  // ------------------------------------------------------- what is contained

  /** A member gives its key and its value, and one called `bodyBase64` also the text it encodes. */
  ghost predicate Gives(world: World, member: (JsString, Value), v: Value) {
    || v == Str(member.0)
    || v == member.1
    || (&& member.0 == [98, 111, 100, 121, 66, 97, 115, 101, 54, 52]
        && member.1.Str? && v == Str(world.decode(member.1.text)))
  }

  /** What is one level inside an entry: what its text parses to, or what its members give. */
  ghost predicate Holds(world: World, e: Entry, x: Entry) {
    && x.depth == e.depth + 1
    && match e.value
       case Str(text) => world.parse(text) == Some(x.value)
       case Object(ref) =>
         exists k :: 0 <= k < |world.entries(ref)| && Gives(world, world.entries(ref)[k], x.value)
       case Other => false
  }

  lemma BodyKeyIs()
    ensures BODY_KEY == [98, 111, 100, 121, 66, 97, 115, 101, 54, 52]
  {
  }

  /** One member yields its key, its value and, if it is a body, the decoded text, in this order. */
  lemma OneMemberGives(world: World, member: (JsString, Value), depth: nat)
    ensures forall x :: x in OneMember(world, member, depth) <==> x.depth == depth && Gives(world, member, x.value)
    ensures OneMember(world, member, depth)[..2] == [Entry(Str(member.0), depth), Entry(member.1, depth)]
    ensures |OneMember(world, member, depth)|
         == if member.0 == [98, 111, 100, 121, 66, 97, 115, 101, 54, 52] && member.1.Str? then 3 else 2
  {
    BodyKeyIs();
    var all := OneMember(world, member, depth);
    assert all[0] == Entry(Str(member.0), depth) && all[1] == Entry(member.1, depth);
    if member.0 == BODY_KEY && member.1.Str? { assert all[2] == Entry(Str(world.decode(member.1.text)), depth); }
  }

  ghost predicate MembersGive(world: World, members: seq<(JsString, Value)>, v: Value) {
    exists k :: 0 <= k < |members| && Gives(world, members[k], v)
  }

  lemma {:induction false} MembersHold(world: World, members: seq<(JsString, Value)>, depth: nat, x: Entry)
    ensures x in MemberContents(world, members, depth) <==> x.depth == depth && MembersGive(world, members, x.value)
  {
    if members != [] {
      var front, last := members[..|members| - 1], members[|members| - 1];
      MembersHold(world, front, depth, x);
      OneMemberGives(world, last, depth);
      assert members == front + [last];
      if MembersGive(world, front, x.value) {
        var k :| 0 <= k < |front| && Gives(world, front[k], x.value);
        assert Gives(world, members[k], x.value);
      }
      if MembersGive(world, members, x.value) {
        var k :| 0 <= k < |members| && Gives(world, members[k], x.value);
        if k < |front| { assert Gives(world, front[k], x.value); }
      }
    }
  }

  /** What inspecting an entry schedules is exactly what is one level inside it. */
  lemma ContentsHold(world: World, e: Entry, x: Entry)
    ensures x in Contents(world, e) <==> Holds(world, e, x)
  {
    match e.value
    case Object(ref) => MembersHold(world, world.entries(ref), e.depth + 1, x);
    case _ =>
  }

  ghost predicate IsPath(world: World, p: seq<Entry>) {
    p != [] && forall k :: 0 <= k < |p| - 1 ==> Holds(world, p[k], p[k + 1])
  }

  /** e is inside root: a member, a key, a parsed string or a decoded body, to any depth. */
  ghost predicate Contains(world: World, root: Entry, e: Entry) {
    exists p :: IsPath(world, p) && p[0] == root && p[|p| - 1] == e
  }

  lemma ContainsSelf(world: World, root: Entry)
    ensures Contains(world, root, root)
  {
    assert IsPath(world, [root]);
  }

  lemma ContainsNext(world: World, root: Entry, e: Entry, x: Entry)
    requires Contains(world, root, e) && Holds(world, e, x)
    ensures Contains(world, root, x)
  {
    var p :| IsPath(world, p) && p[0] == root && p[|p| - 1] == e;
    assert IsPath(world, p + [x]);
  }

  ghost predicate AllInside(world: World, root: Entry, es: seq<Entry>) {
    forall e :: e in es ==> Contains(world, root, e)
  }

  lemma InsideNext(world: World, root: Entry, rest: seq<Entry>, e: Entry)
    requires AllInside(world, root, rest + [e])
    ensures AllInside(world, root, rest + Contents(world, e))
  {
    assert e in rest + [e];
    forall x | x in Contents(world, e) ensures Contains(world, root, x) {
      ContentsHold(world, e, x);
      ContainsNext(world, root, e, x);
    }
    forall x | x in rest ensures Contains(world, root, x) { assert x in rest + [e]; }
  }

  /** Some string inside root is flagged or includes a representation. */
  ghost predicate DisclosesWithin(world: World, representations: seq<JsString>, root: Entry) {
    exists e :: Contains(world, root, e) && e.value.Str? && Discloses(world, representations, e.value.text)
  }

  /** A clean account means every contained entry is itself clean. */
  lemma {:induction false} CleanAlongPath(world: World, representations: seq<JsString>, p: seq<Entry>)
    requires IsPath(world, p) && AuditOf(world, representations, p[0]).clean
    ensures OwnAudit(world, representations, p[|p| - 1]).clean
    decreases |p|
  {
    OwnIsCounted(world, representations, p[0]);
    if |p| > 1 {
      AuditUnfolds(world, representations, p[0]);
      var contents := Contents(world, p[0]);
      assert Holds(world, p[0], p[0 + 1]);
      ContentsHold(world, p[0], p[1]);
      var i :| 0 <= i < |contents| && contents[i] == p[1];
      AuditCleanAt(world, representations, contents, i);
      var rest := p[1..];
      forall k | 0 <= k < |rest| - 1 ensures Holds(world, rest[k], rest[k + 1]) {
        assert Holds(world, p[k + 1], p[k + 1 + 1]);
      }
      CleanAlongPath(world, representations, rest);
    }
  }

  lemma OwnIsCounted(world: World, representations: seq<JsString>, e: Entry)
    requires AuditOf(world, representations, e).clean
    ensures OwnAudit(world, representations, e).clean && e.depth <= MAX_DEPTH
  {
    if e.depth <= MAX_DEPTH { AuditUnfolds(world, representations, e); }
  }

  /** A text occurs in another. */
  ghost predicate Occurs(part: JsString, text: JsString) {
    exists before, after :: text == before + (part + after)
  }

  lemma IncludesIffOccurs(text: JsString, part: JsString)
    ensures Includes(text, part) <==> Occurs(part, text)
  {
    if Includes(text, part) {
      var i :| 0 <= i <= |text| && OccursAt(text, part, i);
      assert text == text[..i] + (part + text[i + |part|..]);
    }
    if Occurs(part, text) {
      var before, after :| text == before + (part + after);
      assert OccursAt(text, part, |before|);
    }
  }

  /** Not too deep, and as a string not too long, not flagged, and without a secret or its JSON escape. */
  ghost predicate Harmless(world: World, secrets: seq<JsString>, e: Entry) {
    && e.depth <= 64
    && (e.value.Str? ==>
          && Utf8Length(e.value.text) <= 16_777_216
          && !world.flagged(e.value.text)
          && forall s :: s in secrets && s != [] ==> !Occurs(s, e.value.text) && !Occurs(Escape(s), e.value.text))
  }

  lemma DisclosesExactly(world: World, secrets: seq<JsString>, text: JsString)
    ensures Discloses(world, Representations(secrets), text) <==>
              world.flagged(text)
              || exists s :: s in secrets && s != [] && (Occurs(s, text) || Occurs(Escape(s), text))
  {
    var representations := Representations(secrets);
    if exists r :: r in representations && Includes(text, r) {
      var r :| r in representations && Includes(text, r);
      RepresentationsAre(secrets, r);
      var s :| s in secrets && Represents(s, r);
      IncludesIffOccurs(text, r);
      assert s != [] && (Occurs(s, text) || Occurs(Escape(s), text));
    }
    forall s | s in secrets && s != [] && (Occurs(s, text) || Occurs(Escape(s), text))
      ensures exists r :: r in representations && Includes(text, r)
    {
      var r := if Occurs(s, text) then s else Escape(s);
      assert Represents(s, r);
      RepresentationsAre(secrets, r);
      IncludesIffOccurs(text, r);
    }
  }

  lemma CleanIsHarmless(world: World, secrets: seq<JsString>, e: Entry)
    ensures OwnAudit(world, Representations(secrets), e).clean <==> Harmless(world, secrets, e)
  {
    if e.value.Str? {
      ByteLengthIsUtf8(e.value.text);
      DisclosesExactly(world, secrets, e.value.text);
    }
  }

  /**
   * An accepted value contains nothing too deep and no string that is flagged, too
   * long, or holds a secret as it is or as JSON escapes it, however it is wrapped.
   */
  lemma AcceptedContainsNoSecret(world: World, secrets: seq<JsString>, limit: nat, root: Entry, e: Entry)
    requires Acceptable(AuditOf(world, Representations(secrets), root), limit)
    requires Contains(world, root, e)
    ensures Harmless(world, secrets, e)
  {
    HarmlessIfClean(world, secrets, root, e);
  }

  /** Everything inside root is clean on its own. */
  ghost predicate AllOwnClean(world: World, representations: seq<JsString>, root: Entry) {
    forall e :: Contains(world, root, e) ==> OwnAudit(world, representations, e).clean
  }

  lemma {:induction false} CleanWithin(
    world: World, representations: seq<JsString>, root: Entry, levels: nat, e: Entry)
    requires AllOwnClean(world, representations, root) && Contains(world, root, e)
    ensures AuditWithin(world, representations, levels, e).clean
    decreases levels, 0
  {
    if levels > 0 {
      forall x | x in Contents(world, e) ensures Contains(world, root, x) {
        ContentsHold(world, e, x);
        ContainsNext(world, root, e, x);
      }
      CleanContents(world, representations, root, levels - 1, Contents(world, e));
    }
  }

  lemma {:induction false} CleanContents(
    world: World, representations: seq<JsString>, root: Entry, levels: nat, es: seq<Entry>)
    requires AllOwnClean(world, representations, root) && AllInside(world, root, es)
    ensures AuditContents(world, representations, levels, es).clean
    decreases levels, |es|
  {
    if es != [] {
      var rest := es[..|es| - 1];
      assert es[|es| - 1] in es && forall x :: x in rest ==> x in es;
      CleanContents(world, representations, root, levels, rest);
      CleanWithin(world, representations, root, levels, es[|es| - 1]);
    }
  }

  lemma HarmlessIfClean(world: World, secrets: seq<JsString>, root: Entry, e: Entry)
    requires AuditOf(world, Representations(secrets), root).clean && Contains(world, root, e)
    ensures Harmless(world, secrets, e)
  {
    var p :| IsPath(world, p) && p[0] == root && p[|p| - 1] == e;
    CleanAlongPath(world, Representations(secrets), p);
    CleanIsHarmless(world, secrets, e);
  }

  lemma CleanIfOwnClean(world: World, representations: seq<JsString>, root: Entry)
    requires AllOwnClean(world, representations, root)
    ensures AuditOf(world, representations, root).clean
  {
    ContainsSelf(world, root);
    CleanWithin(world, representations, root, if root.depth <= MAX_DEPTH then MAX_DEPTH + 1 - root.depth else 0, root);
  }

  lemma OwnCleanIfHarmless(world: World, secrets: seq<JsString>, root: Entry)
    requires forall e :: Contains(world, root, e) ==> Harmless(world, secrets, e)
    ensures AllOwnClean(world, Representations(secrets), root)
  {
    forall e | Contains(world, root, e) ensures OwnAudit(world, Representations(secrets), e).clean {
      CleanIsHarmless(world, secrets, e);
    }
  }

  /** The whole is clean exactly when everything inside it is harmless. */
  lemma CleanExactly(world: World, secrets: seq<JsString>, root: Entry)
    ensures AuditOf(world, Representations(secrets), root).clean
       <==> forall e :: Contains(world, root, e) ==> Harmless(world, secrets, e)
  {
    if AuditOf(world, Representations(secrets), root).clean {
      forall e | Contains(world, root, e) ensures Harmless(world, secrets, e) {
        HarmlessIfClean(world, secrets, root, e);
      }
    }
    if forall e :: Contains(world, root, e) ==> Harmless(world, secrets, e) {
      OwnCleanIfHarmless(world, secrets, root);
      CleanIfOwnClean(world, Representations(secrets), root);
    }
  }

  // --------------------------------------------------------------- the totals

  function TotalEntries(world: World, representations: seq<JsString>, es: seq<Entry>): nat {
    if es == [] then 0
    else AuditOf(world, representations, es[0]).entries + TotalEntries(world, representations, es[1..])
  }

  function TotalBytes(world: World, representations: seq<JsString>, es: seq<Entry>): nat {
    if es == [] then 0
    else AuditOf(world, representations, es[0]).bytes + TotalBytes(world, representations, es[1..])
  }

  lemma {:induction false} TotalsOfAll(world: World, representations: seq<JsString>, es: seq<Entry>)
    ensures AuditAll(world, representations, es).entries == TotalEntries(world, representations, es)
    ensures AuditAll(world, representations, es).bytes == TotalBytes(world, representations, es)
  {
    if es != [] {
      TotalsOfAll(world, representations, es[1..]);
      AuditConcat(world, representations, [es[0]], es[1..]);
      AuditSnoc(world, representations, [], es[0]);
      assert [es[0]] + es[1..] == es && [] + [es[0]] == [es[0]];
    }
  }

  /** An entry counts once, with its UTF-8 length if it is a string, and then so does all it holds. */
  lemma TotalsUnfold(world: World, representations: seq<JsString>, e: Entry)
    requires e.depth <= 64
    ensures var total, contents := AuditOf(world, representations, e), Contents(world, e);
      && total.entries == 1 + TotalEntries(world, representations, contents)
      && total.bytes == (if e.value.Str? then Utf8Length(e.value.text) else 0)
                        + TotalBytes(world, representations, contents)
  {
    AuditUnfolds(world, representations, e);
    TotalsOfAll(world, representations, Contents(world, e));
    if e.value.Str? { ByteLengthIsUtf8(e.value.text); }
  }

  /** Unicode code points; half a surrogate pair becomes U+FFFD. */
  function CodePoints(s: JsString): seq<nat>
    decreases |s|
  {
    if s == [] then []
    else if |s| >= 2 && 0xD800 <= s[0] <= 0xDBFF && 0xDC00 <= s[1] <= 0xDFFF then
      [0x10000 + (s[0] as int - 0xD800) * 0x400 + (s[1] as int - 0xDC00)] + CodePoints(s[2..])
    else [if 0xD800 <= s[0] <= 0xDFFF then 0xFFFD else s[0]] + CodePoints(s[1..])
  }

  /** Section 3 of RFC 3629. */
  function OctetsOf(points: seq<nat>): nat {
    if points == [] then 0
    else
      (if points[0] <= 0x7F then 1 else if points[0] <= 0x7FF then 2 else if points[0] <= 0xFFFF then 3 else 4)
      + OctetsOf(points[1..])
  }

  function Utf8Length(s: JsString): nat {
    OctetsOf(CodePoints(s))
  }

  lemma {:induction false} ByteLengthIsUtf8(s: JsString)
    ensures ByteLength(s) == Utf8Length(s)
    decreases |s|
  {
    if s == [] {
    } else if StartsWithPair(s) {
      ByteLengthIsUtf8(s[2..]);
      assert CodePoints(s)[1..] == CodePoints(s[2..]);
    } else {
      ByteLengthIsUtf8(s[1..]);
      assert CodePoints(s)[1..] == CodePoints(s[1..]);
    }
  }

  // --------------------------------------------------- why entries are refused

  /** Scheduling these after `before` others breaks the entry limit, or something in them is bad. */
  ghost predicate NoRoomFor(world: World, representations: seq<JsString>, limit: nat, entries: seq<Entry>, before: nat) {
    before + |entries| > limit || !AuditAll(world, representations, entries).clean
  }

  /** Opening e exceeds some budget. */
  ghost predicate Exceeds(
    world: World, representations: seq<JsString>, limit: nat, e: Entry, before: nat, bytes: nat)
  {
    || !OwnAudit(world, representations, e).clean
    || bytes + OwnAudit(world, representations, e).bytes > MAX_TOTAL_BYTES
    || NoRoomFor(world, representations, limit, Contents(world, e), before)
  }

  lemma NoRoomForMore(
    world: World, representations: seq<JsString>, limit: nat,
    front: seq<Entry>, one: seq<Entry>, all: seq<Entry>, before: nat)
    requires front + one <= all && NoRoomFor(world, representations, limit, one, before + |front|)
    ensures NoRoomFor(world, representations, limit, all, before)
  {
    var rest := all[|front + one|..];
    assert all == (front + one) + rest;
    AuditConcat(world, representations, front, one);
    AuditConcat(world, representations, front + one, rest);
  }

  /** A refused member exceeds the budgets of its object. */
  lemma Overflows(
    world: World, representations: seq<JsString>, limit: nat, e: Entry, i: nat, before: nat, bytes: nat)
    requires e.value.Object? && i < |world.entries(e.value.ref)|
    requires var members := world.entries(e.value.ref);
             NoRoomFor(world, representations, limit, OneMember(world, members[i], e.depth + 1),
                       before + |MemberContents(world, members[..i], e.depth + 1)|)
    ensures Exceeds(world, representations, limit, e, before, bytes)
  {
    var members := world.entries(e.value.ref);
    MembersSnoc(world, members, i, e.depth + 1);
    MembersInOrder(world, members, i + 1, e.depth + 1);
    NoRoomForMore(world, representations, limit, MemberContents(world, members[..i], e.depth + 1),
                  OneMember(world, members[i], e.depth + 1), Contents(world, e), before);
  }

  /** Opening an entry moves its own share from the pending account to the done one. */
  lemma OpenedTotal(
    world: World, representations: seq<JsString>, e: Entry, rest: seq<Entry>, done: nat, bytes: nat, total: Audit)
    requires e.depth <= MAX_DEPTH
    requires total == Audit(done, bytes, true).Plus(AuditAll(world, representations, rest + [e]))
    ensures var own := OwnAudit(world, representations, e);
            total == Audit(done + 1, bytes + own.bytes, own.clean)
                     .Plus(AuditAll(world, representations, rest + Contents(world, e)))
  {
    var contents := Contents(world, e);
    AuditSnoc(world, representations, rest, e);
    AuditUnfolds(world, representations, e);
    AuditConcat(world, representations, rest, contents);
    Shares(Audit(done, bytes, true), OwnAudit(world, representations, e),
           AuditAll(world, representations, rest), AuditAll(world, representations, contents));
  }

  lemma Shares(done: Audit, own: Audit, rest: Audit, contents: Audit)
    ensures done.Plus(rest.Plus(own.Plus(contents))) == done.Plus(own).Plus(rest.Plus(contents))
  {
  }

  lemma BadEntrySpoils(world: World, representations: seq<JsString>, es: seq<Entry>, x: Entry)
    requires x in es && !OwnAudit(world, representations, x).clean
    ensures !AuditAll(world, representations, es).clean
  {
    var i :| 0 <= i < |es| && es[i] == x;
    if AuditAll(world, representations, es).clean { AuditCleanAt(world, representations, es, i); }
  }

  /** An entry that exceeds a budget makes the whole unacceptable. */
  lemma ExceedingSpoils(
    world: World, representations: seq<JsString>, e: Entry, rest: seq<Entry>, done: nat, bytes: nat, total: Audit,
    limit: nat)
    requires var own := OwnAudit(world, representations, e);
             total == Audit(done + 1, bytes + own.bytes, own.clean)
                      .Plus(AuditAll(world, representations, rest + Contents(world, e)))
    requires Exceeds(world, representations, limit, e, done + 1 + |rest|, bytes)
    ensures !Acceptable(total, limit)
  {
    var contents := Contents(world, e);
    AuditCounts(world, representations, rest + contents);
    AuditConcat(world, representations, rest, contents);
  }

  /** What was visited and what is pending add up to the whole, and all of it is inside root. */
  ghost predicate Accounts(
    world: World, representations: seq<JsString>, root: Entry, visited: nat, bytes: nat, pending: seq<Entry>)
  {
    && bytes <= MAX_TOTAL_BYTES
    && AuditOf(world, representations, root)
       == Audit(visited, bytes, true).Plus(AuditAll(world, representations, pending))
    && AllInside(world, root, pending)
  }

  lemma AccountOpens(world: World, representations: seq<JsString>, root: Entry)
    ensures Accounts(world, representations, root, 0, 0, [root])
  {
    AuditSnoc(world, representations, [], root);
    assert [] + [root] == [root];
    ContainsSelf(world, root);
  }

  lemma AccountCloses(world: World, representations: seq<JsString>, root: Entry, visited: nat, bytes: nat, limit: nat)
    requires Accounts(world, representations, root, visited, bytes, []) && visited <= limit
    ensures Acceptable(AuditOf(world, representations, root), limit)
    ensures AuditOf(world, representations, root).entries == visited
  {
  }

  /** Opening the last pending entry keeps the account, or shows that the whole is unacceptable. */
  lemma Opened(
    world: World, representations: seq<JsString>, root: Entry, e: Entry, rest: seq<Entry>, visited: nat, bytes: nat,
    limit: nat)
    requires e.depth <= MAX_DEPTH && Accounts(world, representations, root, visited, bytes, rest + [e])
    ensures e.value.Str? && Discloses(world, representations, e.value.text) ==>
              DisclosesWithin(world, representations, root)
    ensures var own := OwnAudit(world, representations, e);
            own.clean && bytes + own.bytes <= MAX_TOTAL_BYTES ==>
              Accounts(world, representations, root, visited + 1, bytes + own.bytes, rest + Contents(world, e))
    ensures Exceeds(world, representations, limit, e, visited + 1 + |rest|, bytes) ==>
              !Acceptable(AuditOf(world, representations, root), limit)
  {
    var total := AuditOf(world, representations, root);
    assert e in rest + [e];
    InsideNext(world, root, rest, e);
    OpenedTotal(world, representations, e, rest, visited, bytes, total);
    if Exceeds(world, representations, limit, e, visited + 1 + |rest|, bytes) {
      ExceedingSpoils(world, representations, e, rest, visited, bytes, total, limit);
    }
  }

  // ------------------------------------------------------------ the worklist

  class Inspection {
    const world: World
    const representations: seq<JsString>
    const limit: nat
    var pending: seq<Entry>
    var visited: nat
    var stringBytes: nat
    var scheduled: nat

    /** Everything scheduled was visited or is pending, and nothing pending is too deep. */
    ghost predicate Valid()
      reads this
    {
      scheduled == visited + |pending| && scheduled <= limit && forall e :: e in pending ==> e.depth <= MAX_DEPTH
    }

    constructor (world: World, secrets: seq<JsString>, limit: nat, value: Value)
      requires limit > 0
      ensures this.world == world && this.representations == Representations(secrets) && this.limit == limit
      ensures Valid() && pending == [Entry(value, 0)] && visited == 0 && stringBytes == 0
    {
      this.world, this.representations, this.limit := world, Representations(secrets), limit;
      pending, visited, stringBytes, scheduled := [Entry(value, 0)], 0, 0, 1;
    }

    method Schedule(entries: seq<Entry>) returns (ok: bool)
      requires Valid()
      modifies this`pending, this`scheduled
      ensures Valid()
      ensures ok <==> old(scheduled) + |entries| <= limit && forall e :: e in entries ==> e.depth <= MAX_DEPTH
      ensures pending == if ok then old(pending) + entries else old(pending)
    {
      if scheduled + |entries| > limit || exists e :: e in entries && e.depth > MAX_DEPTH { return false; }
      scheduled := scheduled + |entries|;
      pending := pending + entries;
      return true;
    }

    method InspectText(text: JsString, depth: nat) returns (verdict: Verdict)
      requires Valid() && depth <= MAX_DEPTH
      modifies this`pending, this`scheduled, this`stringBytes
      ensures verdict == Clean ==>
                && Valid() && OwnAudit(world, representations, Entry(Str(text), depth)).clean
                && pending == old(pending) + Contents(world, Entry(Str(text), depth))
                && stringBytes == old(stringBytes) + ByteLength(text) <= MAX_TOTAL_BYTES
      ensures verdict != Clean ==>
                Exceeds(world, representations, limit, Entry(Str(text), depth), old(scheduled), old(stringBytes))
      ensures verdict == DisclosureRefused ==> Discloses(world, representations, text)
    {
      stringBytes := stringBytes + ByteLength(text);
      if ByteLength(text) > MAX_STRING_BYTES || stringBytes > MAX_TOTAL_BYTES { return BoundRefused; }
      if Discloses(world, representations, text) { return DisclosureRefused; }
      var parsed := world.parse(text);
      if parsed.Some? {
        var child := Entry(parsed.value, depth + 1);
        var ok := Schedule([child]);
        if !ok {
          ghost var contents := Contents(world, Entry(Str(text), depth));
          assert contents == [child];
          if child.depth > MAX_DEPTH { BadEntrySpoils(world, representations, contents, child); }
          return BoundRefused;
        }
      }
      return Clean;
    }

    method InspectObject(ref: Ref, depth: nat) returns (verdict: Verdict)
      requires Valid() && depth <= MAX_DEPTH
      modifies this`pending, this`scheduled
      ensures verdict == Clean ==> Valid() && pending == old(pending) + Contents(world, Entry(Object(ref), depth))
      ensures verdict != Clean ==>
                Exceeds(world, representations, limit, Entry(Object(ref), depth), old(scheduled), stringBytes)
      ensures verdict != DisclosureRefused
    {
      ghost var at;
      verdict, at := InspectMembers(world.entries(ref), depth + 1);
      if verdict != Clean {
        Overflows(world, representations, limit, Entry(Object(ref), depth), at, old(scheduled), stringBytes);
      }
    }

    method InspectMembers(members: seq<(JsString, Value)>, depth: nat) returns (verdict: Verdict, ghost at: nat)
      requires Valid()
      modifies this`pending, this`scheduled
      ensures verdict == Clean ==> Valid() && pending == old(pending) + MemberContents(world, members, depth)
      ensures verdict != Clean ==>
                at < |members| && NoRoomFor(world, representations, limit, OneMember(world, members[at], depth),
                                            old(scheduled) + |MemberContents(world, members[..at], depth)|)
      ensures verdict != DisclosureRefused
    {
      var i := 0;
      at := 0;
      ghost var done: seq<Entry>, start, before := [], pending, scheduled;
      while i < |members|
        invariant i <= |members| && Valid()
        invariant done == MemberContents(world, members[..i], depth) && pending == start + done
        invariant scheduled == before + |done|
      {
        at := i;
        verdict := InspectMember(members[i], depth);
        if verdict != Clean { return; }
        MembersSnoc(world, members, i, depth);
        Regroup(start, done, OneMember(world, members[i], depth));
        done := done + OneMember(world, members[i], depth);
        i := i + 1;
      }
      assert members[..i] == members;
      return Clean, 0;
    }

    method InspectMember(member: (JsString, Value), depth: nat) returns (verdict: Verdict)
      requires Valid()
      modifies this`pending, this`scheduled
      ensures verdict == Clean ==> Valid() && pending == old(pending) + OneMember(world, member, depth)
      ensures verdict != Clean ==>
                NoRoomFor(world, representations, limit, OneMember(world, member, depth), old(scheduled))
      ensures verdict != DisclosureRefused
    {
      var (key, child) := member;
      ghost var one := OneMember(world, member, depth);
      var ok := Schedule([Entry(Str(key), depth), Entry(child, depth)]);
      if !ok {
        if depth > MAX_DEPTH { BadEntrySpoils(world, representations, one, one[0]); }
        return BoundRefused;
      }
      if key == BODY_KEY && child.Str? {
        if ByteLength(child.text) > MAX_STRING_BYTES {
          BadEntrySpoils(world, representations, one, one[1]);
          return BoundRefused;
        }
        ok := Schedule([Entry(Str(world.decode(child.text)), depth)]);
        if !ok { return BoundRefused; }
      }
      return Clean;
    }

    method Inspect(e: Entry) returns (verdict: Verdict)
      requires Valid() && e.depth <= MAX_DEPTH && stringBytes <= MAX_TOTAL_BYTES
      modifies this`pending, this`scheduled, this`stringBytes
      ensures verdict == Clean ==>
                && Valid() && OwnAudit(world, representations, e).clean
                && pending == old(pending) + Contents(world, e)
                && stringBytes == old(stringBytes) + OwnAudit(world, representations, e).bytes <= MAX_TOTAL_BYTES
      ensures verdict != Clean ==> Exceeds(world, representations, limit, e, old(scheduled), old(stringBytes))
      ensures verdict == DisclosureRefused ==> e.value.Str? && Discloses(world, representations, e.value.text)
    {
      match e.value {
        case Str(text) => verdict := InspectText(text, e.depth);
        case Object(ref) => verdict := InspectObject(ref, e.depth);
        case Other => verdict := Clean;
      }
    }

    method Pop() returns (entry: Entry)
      requires Valid() && pending != []
      modifies this`pending, this`visited
      ensures Valid() && entry.depth <= MAX_DEPTH && visited == old(visited) + 1 <= limit
      ensures old(pending) == pending + [entry]
    {
      entry := pending[|pending| - 1];
      assert entry in pending;
      pending := pending[..|pending| - 1];
      visited := visited + 1;
    }

    /** One round: the checks made at each pop never fire, because Schedule made them already. */
    method Step(ghost root: Entry) returns (verdict: Verdict)
      requires Valid() && Accounts(world, representations, root, visited, stringBytes, pending) && pending != []
      modifies this
      ensures verdict == Clean ==> Valid() && visited == old(visited) + 1
      ensures verdict == Clean ==> Accounts(world, representations, root, visited, stringBytes, pending)
      ensures verdict != Clean ==> !Acceptable(AuditOf(world, representations, root), limit)
      ensures verdict == DisclosureRefused ==> DisclosesWithin(world, representations, root)
    {
      ghost var bytes := stringBytes;
      var entry := Pop();
      ghost var rest := pending;
      verdict := Inspect(entry);
      Opened(world, representations, root, entry, rest, visited - 1, bytes, limit);
    }

    /** The loop over `pending`. */
    method Run(ghost root: Entry) returns (verdict: Verdict)
      requires Valid() && pending == [root] && visited == 0 && stringBytes == 0
      modifies this
      ensures verdict == Clean <==> Acceptable(AuditOf(world, representations, root), limit)
      ensures verdict == Clean ==> visited == AuditOf(world, representations, root).entries
      ensures verdict == DisclosureRefused ==> DisclosesWithin(world, representations, root)
    {
      AccountOpens(world, representations, root);
      while |pending| > 0
        invariant Valid() && Accounts(world, representations, root, visited, stringBytes, pending)
        decreases limit - visited
      {
        verdict := Step(root);
        if verdict != Clean { return; }
      }
      AccountCloses(world, representations, root, visited, stringBytes, limit);
      return Clean;
    }
  }

  /** Some string inside root is flagged or holds a secret. */
  ghost predicate SecretInside(world: World, secrets: seq<JsString>, root: Entry) {
    exists e ::
      && Contains(world, root, e) && e.value.Str?
      && (world.flagged(e.value.text)
          || exists s :: s in secrets && s != [] && (Occurs(s, e.value.text) || Occurs(Escape(s), e.value.text)))
  }

  lemma DisclosedIsInside(world: World, secrets: seq<JsString>, root: Entry)
    requires DisclosesWithin(world, Representations(secrets), root)
    ensures SecretInside(world, secrets, root)
  {
    var e :| Contains(world, root, e) && e.value.Str? && Discloses(world, Representations(secrets), e.value.text);
    DisclosesExactly(world, secrets, e.value.text);
  }

  /**
   * No problem is reported exactly when the scope is known, everything inside the
   * value is harmless, and its entries and string bytes are within the budgets.
   */
  method NativeEvidenceProblems(world: World, value: Value, secrets: seq<JsString>, scope: Scope)
    returns (verdict: Verdict)
    ensures var total := AuditOf(world, Representations(secrets), Entry(value, 0));
      verdict == Clean <==>
        && (scope == ValueScope || scope == CaptureScope)
        && (forall e :: Contains(world, Entry(value, 0), e) ==> Harmless(world, secrets, e))
        && total.entries <= (if scope == CaptureScope then 1_000_000 else 250_000)
        && total.bytes <= 67_108_864
    ensures verdict == DisclosureRefused ==> SecretInside(world, secrets, Entry(value, 0))
  {
    CleanExactly(world, secrets, Entry(value, 0));
    if scope != ValueScope && scope != CaptureScope { return BoundRefused; }
    var inspection := new Inspection(world, secrets, EntryLimit(scope), value);
    verdict := inspection.Run(Entry(value, 0));
    if verdict == DisclosureRefused { DisclosedIsInside(world, secrets, Entry(value, 0)); }
  }

  function EntryLimit(scope: Scope): nat {
    if scope == CaptureScope then NATIVE_CAPTURE_ENTRY_LIMIT else VALUE_ENTRY_LIMIT
  }
}

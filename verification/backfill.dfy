/**
 * The canonical-graph backfill: pages of ids in database order, one attempt per
 * id, a cursor that moves only on success, and a manifest that says where to
 * resume. The database is a sorted listing; validating or materialising one
 * review version, and enforcing the contract at the end, are oracles.
 */
module Backfill {
  import opened Prelude
  import opened JsText
  import opened Sorting

  /** Review version ids ascending under the database's own order. */
  datatype Database = Database(ids: seq<JsString>, leq: (JsString, JsString) -> bool) {
    ghost predicate Valid() {
      && IsTotal(leq) && IsTransitive(leq) && IsAntisymmetric(leq)
      && Sorted(leq, ids) && Distinct(ids)
      && forall id :: id in ids ==> id != []
    }

    /** `id > cursor` */
    predicate Follows(cursor: Option<JsString>, id: JsString) {
      cursor.None? || (leq(cursor.value, id) && id != cursor.value)
    }

    /** The ids a cursor leaves out: those up to it. */
    function Skipped(cursor: Option<JsString>): (n: nat)
      ensures n <= |ids|
    {
      SkippedFrom(cursor, 0)
    }

    function SkippedFrom(cursor: Option<JsString>, i: nat): (n: nat)
      requires i <= |ids|
      ensures i <= n <= |ids|
      ensures forall k :: i <= k < n ==> !Follows(cursor, ids[k])
      ensures n < |ids| ==> Follows(cursor, ids[n])
      decreases |ids| - i
    {
      if i == |ids| || Follows(cursor, ids[i]) then i else SkippedFrom(cursor, i + 1)
    }

    /** `where: cursor ? { id: { gt: cursor } } : undefined, orderBy: { id: "asc" }` */
    function After(cursor: Option<JsString>): seq<JsString> {
      ids[Skipped(cursor)..]
    }

    /** In a sorted listing what follows the cursor is exactly what is not skipped. */
    lemma AfterIsWhatFollows(cursor: Option<JsString>, k: nat)
      requires Valid() && k < |ids|
      ensures Follows(cursor, ids[k]) <==> Skipped(cursor) <= k
    {
      var n := Skipped(cursor);
      if n < k && cursor.Some? {
        assert leq(cursor.value, ids[n]) && leq(ids[n], ids[k]);
        assert !leq(ids[k], ids[n]);
      }
    }

    /** Taking an id as the cursor leaves exactly the ids after it. */
    lemma AfterAnId(k: nat)
      requires Valid() && k < |ids|
      ensures After(Some(ids[k])) == ids[k + 1..]
    {
      var cursor := Some(ids[k]);
      AfterIsWhatFollows(cursor, k);
      if k + 1 < |ids| {
        assert leq(ids[k], ids[k + 1]) && ids[k] != ids[k + 1];
        AfterIsWhatFollows(cursor, k + 1);
      }
      assert Skipped(cursor) == k + 1;
    }
  }

  datatype Status = Validated | Materialized | Failed

  datatype Entry = Entry(id: JsString, status: Status)

  datatype Options = Options(apply: bool, all: bool, finalize: bool, after: Option<JsString>, batchSize: nat)

  /** What the attempt on an id, and the activation of the contract after given entries, come to. */
  datatype Outcomes = Outcomes(succeeds: JsString -> bool, enforces: seq<Entry> -> bool)

  datatype Manifest = Manifest(
    entries: seq<Entry>, selectedCount: nat, processedCount: nat, failed: bool, remaining: nat,
    nextAfter: Option<JsString>, complete: bool, enforced: bool)

  /** `--batch-size` is 1 to 500, `--after` is not empty, `--finalize-contract` needs `--apply` and `--all`. */
  predicate ValidOptions(o: Options) {
    1 <= o.batchSize <= 500 && (o.after.Some? ==> o.after.value != []) && (o.finalize ==> o.apply && o.all)
  }

  // ------------------------------------------------------------- what a run does

  /** Attempts in order, up to and including the first failure. */
  function Attempts(apply: bool, succeeds: JsString -> bool, ids: seq<JsString>): seq<Entry> {
    if ids == [] then []
    else if succeeds(ids[0]) then
      [Entry(ids[0], if apply then Materialized else Validated)] + Attempts(apply, succeeds, ids[1..])
    else [Entry(ids[0], Failed)]
  }

  /** How many ids succeed before the first failure. */
  function Successes(succeeds: JsString -> bool, ids: seq<JsString>): (n: nat)
    ensures n <= |ids|
    ensures n < |ids| ==> !succeeds(ids[n])
    ensures forall k :: 0 <= k < n ==> succeeds(ids[k])
  {
    if ids == [] || !succeeds(ids[0]) then 0 else 1 + Successes(succeeds, ids[1..])
  }

  /** The ids one run may attempt: all of them, or one page. */
  function Offered(db: Database, o: Options): seq<JsString> {
    var todo := db.After(o.after);
    if o.all || |todo| <= o.batchSize then todo else todo[..o.batchSize]
  }

  function SucceededIds(entries: seq<Entry>): seq<JsString> {
    if entries == [] then []
    else (if entries[0].status != Failed then [entries[0].id] else []) + SucceededIds(entries[1..])
  }

  function LastSuccess(entries: seq<Entry>): Option<JsString> {
    if entries == [] then None
    else if entries[|entries| - 1].status != Failed then Some(entries[|entries| - 1].id)
    else LastSuccess(entries[..|entries| - 1])
  }

  lemma {:induction false} AttemptsSucceed(apply: bool, succeeds: JsString -> bool, ids: seq<JsString>)
    ensures SucceededIds(Attempts(apply, succeeds, ids)) == ids[..Successes(succeeds, ids)]
  {
    if ids != [] && succeeds(ids[0]) {
      AttemptsSucceed(apply, succeeds, ids[1..]);
      var rest := Attempts(apply, succeeds, ids[1..]);
      assert Attempts(apply, succeeds, ids)[1..] == rest;
      assert ids[..Successes(succeeds, ids)] == [ids[0]] + ids[1..][..Successes(succeeds, ids[1..])];
    }
  }

  lemma {:induction false} AttemptsCount(apply: bool, succeeds: JsString -> bool, ids: seq<JsString>)
    ensures |Attempts(apply, succeeds, ids)|
         == Successes(succeeds, ids) + if Successes(succeeds, ids) < |ids| then 1 else 0
  {
    if ids != [] && succeeds(ids[0]) { AttemptsCount(apply, succeeds, ids[1..]); }
  }

  lemma {:induction false} LastSuccessIs(entries: seq<Entry>)
    ensures LastSuccess(entries).None? <==> SucceededIds(entries) == []
    ensures LastSuccess(entries).Some? ==>
              LastSuccess(entries).value == SucceededIds(entries)[|SucceededIds(entries)| - 1]
  {
    if entries != [] {
      var rest, last := entries[..|entries| - 1], entries[|entries| - 1];
      LastSuccessIs(rest);
      assert entries == rest + [last];
      SucceededSnoc(rest, last);
    }
  }

  lemma {:induction false} SucceededSnoc(entries: seq<Entry>, last: Entry)
    ensures SucceededIds(entries + [last]) == SucceededIds(entries) + if last.status != Failed then [last.id] else []
  {
    if entries != [] {
      assert (entries + [last])[1..] == entries[1..] + [last];
      SucceededSnoc(entries[1..], last);
    }
  }

  /** Where the page that holds position k ends. */
  function PageEnd(size: nat, k: nat): nat
    requires size > 0
  {
    k - k % size + size
  }

  /** The ids fetched: every page up to the one in which an attempt fails. */
  function Selected(db: Database, o: Options, succeeds: JsString -> bool): nat
    requires ValidOptions(o)
  {
    var count, k := |Offered(db, o)|, Successes(succeeds, Offered(db, o));
    if k < count && PageEnd(o.batchSize, k) < count then PageEnd(o.batchSize, k) else count
  }

  /** Some attempt failed. */
  predicate Stopped(db: Database, o: Options, succeeds: JsString -> bool) {
    Successes(succeeds, Offered(db, o)) < |Offered(db, o)|
  }

  function ManifestOf(db: Database, o: Options, x: Outcomes): Manifest
    requires ValidOptions(o)
  {
    var entries := Attempts(o.apply, x.succeeds, Offered(db, o));
    var last := LastSuccess(entries);
    var remaining := |db.After(if last.Some? then last else o.after)|;
    var corpusComplete := !Stopped(db, o, x.succeeds) && remaining == 0;
    var enforced := o.finalize && corpusComplete && x.enforces(entries);
    var failed := Stopped(db, o, x.succeeds) || (o.finalize && !enforced);
    Manifest(entries, Selected(db, o, x.succeeds), |SucceededIds(entries)|, failed, remaining,
             if failed && last.None? then o.after else last, !failed && corpusComplete, enforced)
  }

  /** The position reached after p successes. */
  ghost predicate Reached(db: Database, o: Options, succeeds: JsString -> bool, p: nat, cursor: Option<JsString>,
                          entries: seq<Entry>)
  {
    && p <= |Offered(db, o)| && p <= Successes(succeeds, Offered(db, o))
    && cursor == (if p == 0 then o.after else Some(Offered(db, o)[p - 1]))
    && entries == Attempts(o.apply, succeeds, Offered(db, o)[..p])
  }

  lemma {:induction false} AttemptsSnoc(apply: bool, succeeds: JsString -> bool, ids: seq<JsString>, p: nat)
    requires p < |ids| && p <= Successes(succeeds, ids)
    ensures succeeds(ids[p]) ==> p + 1 <= Successes(succeeds, ids)
    ensures Attempts(apply, succeeds, ids[..p + 1]) == Attempts(apply, succeeds, ids[..p])
            + [Entry(ids[p], if !succeeds(ids[p]) then Failed else if apply then Materialized else Validated)]
  {
    if p > 0 {
      AttemptsSnoc(apply, succeeds, ids[1..], p - 1);
      assert ids[..p + 1][1..] == ids[1..][..p] && ids[..p][1..] == ids[1..][..p - 1];
    } else {
      assert ids[..1] == [ids[0]] && ids[..0] == [] && ids[..1][1..] == [];
    }
  }

  lemma {:induction false} AttemptsStop(apply: bool, succeeds: JsString -> bool, ids: seq<JsString>, p: nat)
    requires p < |ids| && p == Successes(succeeds, ids)
    ensures Attempts(apply, succeeds, ids[..p + 1]) == Attempts(apply, succeeds, ids)
  {
    if p > 0 {
      AttemptsStop(apply, succeeds, ids[1..], p - 1);
      assert ids[..p + 1][1..] == ids[1..][..p];
    }
  }

  /** What follows the cursor after p successes is what is left to do. */
  lemma CursorLeaves(db: Database, o: Options, succeeds: JsString -> bool, p: nat, cursor: Option<JsString>,
                     entries: seq<Entry>)
    requires db.Valid() && Reached(db, o, succeeds, p, cursor, entries)
    ensures db.After(cursor) == db.After(o.after)[p..]
  {
    var todo := db.After(o.after);
    if p > 0 {
      var k := db.Skipped(o.after) + p - 1;
      assert Offered(db, o)[p - 1] == todo[p - 1] == db.ids[k];
      db.AfterAnId(k);
      assert todo[p..] == db.ids[k + 1..];
    }
  }

  // ----------------------------------------------------------------- the run

  method FindMany(db: Database, cursor: Option<JsString>, take: nat) returns (versions: seq<JsString>)
    ensures versions == Page(db, cursor, take)
  {
    var found := db.After(cursor);
    versions := if |found| <= take then found else found[..take];
  }

  function Page(db: Database, cursor: Option<JsString>, take: nat): seq<JsString> {
    if |db.After(cursor)| <= take then db.After(cursor) else db.After(cursor)[..take]
  }

  /** One page: attempts in order until the first failure. */
  method RunPage(
    db: Database, o: Options, succeeds: JsString -> bool, page: seq<JsString>, ghost p: nat,
    from: Option<JsString>, done: seq<Entry>)
    returns (cursor: Option<JsString>, entries: seq<Entry>, failed: bool, ghost q: nat)
    requires Reached(db, o, succeeds, p, from, done)
    requires p + |page| <= |Offered(db, o)| && page == Offered(db, o)[p..p + |page|]
    ensures !failed ==> q == p + |page| && Reached(db, o, succeeds, q, cursor, entries)
    ensures failed ==>
              Finished(db, o, succeeds, cursor, entries, true) && p <= Successes(succeeds, Offered(db, o)) < p + |page|
  {
    cursor, entries, failed, q := from, done, false, p;
    var i := 0;
    while i < |page|
      invariant i <= |page| && q == p + i && Reached(db, o, succeeds, q, cursor, entries)
    {
      var id := page[i];
      assert id == Offered(db, o)[q];
      AttemptsSnoc(o.apply, succeeds, Offered(db, o), q);
      if !succeeds(id) {
        entries := entries + [Entry(id, Failed)];
        AttemptsStop(o.apply, succeeds, Offered(db, o), q);
        CursorIsLastSuccess(db, o, succeeds, q, cursor);
        return cursor, entries, true, q;
      }
      entries := entries + [Entry(id, if o.apply then Materialized else Validated)];
      cursor := Some(id);
      i := i + 1;
      q := q + 1;
    }
  }

  lemma CursorIsLastSuccess(db: Database, o: Options, succeeds: JsString -> bool, p: nat, cursor: Option<JsString>)
    requires p == Successes(succeeds, Offered(db, o))
    requires cursor == if p == 0 then o.after else Some(Offered(db, o)[p - 1])
    ensures var last := LastSuccess(Attempts(o.apply, succeeds, Offered(db, o)));
            cursor == if last.Some? then last else o.after
  {
    AttemptsSucceed(o.apply, succeeds, Offered(db, o));
    LastSuccessIs(Attempts(o.apply, succeeds, Offered(db, o)));
  }

  /** Between pages: everything so far succeeded, or the run has failed and is over. */
  ghost predicate Between(
    db: Database, o: Options, succeeds: JsString -> bool, p: nat, cursor: Option<JsString>, entries: seq<Entry>,
    failed: bool, selectedCount: nat, again: bool)
    requires ValidOptions(o)
  {
    if failed then
      && !again && Finished(db, o, succeeds, cursor, entries, failed)
      && selectedCount == Selected(db, o, succeeds)
    else
      && Reached(db, o, succeeds, p, cursor, entries) && selectedCount == p
      && (if again then p % o.batchSize == 0 && (p == 0 || o.all) else p == |Offered(db, o)|)
  }

  /** All attempts were made, and the cursor stands on the last success. */
  ghost predicate Finished(
    db: Database, o: Options, succeeds: JsString -> bool, cursor: Option<JsString>, entries: seq<Entry>, failed: bool)
  {
    && entries == Attempts(o.apply, succeeds, Offered(db, o))
    && failed == Stopped(db, o, succeeds)
    && cursor == if LastSuccess(entries).Some? then LastSuccess(entries) else o.after
  }

  lemma Ends(db: Database, o: Options, succeeds: JsString -> bool, p: nat, cursor: Option<JsString>, entries: seq<Entry>)
    requires Reached(db, o, succeeds, p, cursor, entries) && p == |Offered(db, o)|
    ensures Finished(db, o, succeeds, cursor, entries, false)
    ensures |entries| == p
  {
    assert Offered(db, o)[..p] == Offered(db, o);
    CursorIsLastSuccess(db, o, succeeds, p, cursor);
    AttemptsCount(o.apply, succeeds, Offered(db, o));
  }

  /** A page fetched after p successes is the next stretch of what is offered. */
  lemma NextPage(
    db: Database, o: Options, succeeds: JsString -> bool, p: nat, cursor: Option<JsString>, entries: seq<Entry>)
    requires db.Valid() && Reached(db, o, succeeds, p, cursor, entries) && (p == 0 || o.all)
    ensures var page := Page(db, cursor, o.batchSize);
            && p + |page| <= |Offered(db, o)| && page == Offered(db, o)[p..p + |page|]
            && |page| <= o.batchSize
            && (!o.all || |page| < o.batchSize ==> p + |page| == |Offered(db, o)|)
  {
    CursorLeaves(db, o, succeeds, p, cursor, entries);
  }

  method RunBatch(
    db: Database, o: Options, succeeds: JsString -> bool, ghost p: nat, from: Option<JsString>, done: seq<Entry>,
    selectedBefore: nat)
    returns (
      cursor: Option<JsString>, entries: seq<Entry>, failed: bool, selectedCount: nat, again: bool, ghost q: nat)
    requires db.Valid() && ValidOptions(o) && Between(db, o, succeeds, p, from, done, false, selectedBefore, true)
    ensures Between(db, o, succeeds, q, cursor, entries, failed, selectedCount, again)
    ensures again ==> q > p
  {
    NextPage(db, o, succeeds, p, from, done);
    var versions := FindMany(db, from, o.batchSize);
    selectedCount := selectedBefore + |versions|;
    cursor, entries, failed, q := RunPage(db, o, succeeds, versions, p, from, done);
    again := !failed && o.all && |versions| == o.batchSize;
    if failed {
      FailsOnPage(db, o, succeeds, p, |versions|);
    } else {
      PageDone(db, o, succeeds, q, cursor, entries, p, |versions|);
    }
  }

  lemma PageDone(
    db: Database, o: Options, succeeds: JsString -> bool, q: nat, cursor: Option<JsString>, entries: seq<Entry>,
    p: nat, fetched: nat)
    requires ValidOptions(o) && p % o.batchSize == 0
    requires Reached(db, o, succeeds, q, cursor, entries) && q == p + fetched
    requires fetched <= o.batchSize && (fetched < o.batchSize || !o.all ==> q == |Offered(db, o)|)
    ensures Between(db, o, succeeds, q, cursor, entries, false, q, o.all && fetched == o.batchSize)
  {
    PageOf(o.batchSize, p, p);
  }

  lemma FailsOnPage(db: Database, o: Options, succeeds: JsString -> bool, p: nat, fetched: nat)
    requires ValidOptions(o) && p % o.batchSize == 0
    requires p <= Successes(succeeds, Offered(db, o)) < p + fetched <= |Offered(db, o)|
    requires fetched <= o.batchSize && (fetched < o.batchSize || !o.all ==> p + fetched == |Offered(db, o)|)
    ensures Selected(db, o, succeeds) == p + fetched
  {
    PageOf(o.batchSize, p, Successes(succeeds, Offered(db, o)));
  }

  /** A position at most size after the start of a page belongs to that page. */
  lemma PageOf(size: nat, p: nat, k: nat)
    requires size > 0 && p % size == 0 && p <= k < p + size
    ensures k % size == k - p
    ensures (p + size) % size == 0
  {
    var q := p / size;
    assert p == q * size;
    RemainderIs(size, q, k);
    RemainderIs(size, q + 1, p + size);
  }

  lemma RemainderIs(size: nat, q: nat, k: nat)
    requires q * size <= k < q * size + size
    ensures k % size == k - q * size
  {
    var r := k / size;
    assert k == r * size + k % size;
    if r < q {
      LaterPage(size, r, q);
    } else if q < r {
      LaterPage(size, q, r);
    }
  }

  lemma {:induction false} LaterPage(size: nat, r: nat, q: nat)
    requires r < q
    ensures r * size + size <= q * size
    decreases q - r
  {
    if r + 1 < q { LaterPage(size, r + 1, q); }
  }

  // -------------------------------------------------- the manifest, id by id

  /** The first b ids are those up to the start. */
  ghost predicate StartsAt(db: Database, after: Option<JsString>, b: nat) {
    && b <= |db.ids|
    && forall k :: 0 <= k < |db.ids| ==> (k < b <==> after.Some? && db.leq(db.ids[k], after.value))
  }

  ghost predicate LastFailed(m: Manifest) {
    m.entries != [] && m.entries[|m.entries| - 1].status == Failed
  }

  ghost function Done(m: Manifest): nat {
    if LastFailed(m) then |m.entries| - 1 else |m.entries|
  }

  /** The attempt on an id. */
  ghost predicate IsAttempt(e: Entry, id: JsString, apply: bool, succeeds: bool) {
    && e.id == id
    && (e.status == Failed <==> !succeeds)
    && (e.status == Materialized <==> succeeds && apply)
  }

  /** Entry i is the attempt on the i-th id after the start, and none but the last one failed. */
  ghost predicate EntriesAre(entries: seq<Entry>, db: Database, apply: bool, succeeds: JsString -> bool, b: nat) {
    && b + |entries| <= |db.ids|
    && (forall i :: 0 <= i < |entries| ==> IsAttempt(entries[i], db.ids[b + i], apply, succeeds(db.ids[b + i])))
    && (forall i :: 0 <= i < |entries| - 1 ==> entries[i].status != Failed)
  }

  /** Unless one failed, all ids after the start were attempted, or as many as a batch holds. */
  ghost predicate AttemptsReach(m: Manifest, db: Database, o: Options, b: nat) {
    && (!o.all ==> |m.entries| <= o.batchSize)
    && (!LastFailed(m) ==> b + |m.entries| == |db.ids| || (!o.all && |m.entries| == o.batchSize))
  }

  /** Of the ids that are left, full batches are fetched, up to the one that holds the n-th attempt. */
  ghost predicate FetchedPages(n: nat, fetched: nat, size: nat, left: nat, failed: bool)
    requires size > 0
  {
    && n <= fetched <= left
    && (forall j :: n <= j < fetched ==> j % size != 0)
    && (failed ==> fetched % size == 0 || fetched == left)
    && (!failed ==> fetched == n)
  }

  ghost predicate FetchedAre(m: Manifest, db: Database, o: Options, b: nat)
    requires 0 < o.batchSize && b <= |db.ids|
  {
    FetchedPages(|m.entries|, m.selectedCount, o.batchSize, |db.ids| - b, LastFailed(m))
  }

  /** The figures, the contract and the verdict. */
  ghost predicate FiguresAre(m: Manifest, db: Database, o: Options, enforces: seq<Entry> -> bool, b: nat)
    requires b + |m.entries| <= |db.ids|
  {
    && m.processedCount == Done(m) && m.remaining == |db.ids| - b - Done(m)
    && (m.enforced <==> o.finalize && !LastFailed(m) && m.remaining == 0 && enforces(m.entries))
    && (m.failed <==> LastFailed(m) || (o.finalize && !m.enforced))
    && (m.complete <==> !m.failed && m.remaining == 0)
    && m.nextAfter == (if Done(m) > 0 then Some(db.ids[b + Done(m) - 1]) else if m.failed then o.after else None)
  }

  ghost predicate IsManifest(m: Manifest, db: Database, o: Options, x: Outcomes)
    requires ValidOptions(o)
  {
    exists b: nat ::
      && StartsAt(db, o.after, b) && EntriesAre(m.entries, db, o.apply, x.succeeds, b)
      && AttemptsReach(m, db, o, b) && FetchedAre(m, db, o, b) && FiguresAre(m, db, o, x.enforces, b)
  }

  lemma SkippedStarts(db: Database, after: Option<JsString>)
    requires db.Valid()
    ensures StartsAt(db, after, db.Skipped(after))
  {
    forall k: nat | k < |db.ids| ensures k < db.Skipped(after) <==> after.Some? && db.leq(db.ids[k], after.value) {
      db.AfterIsWhatFollows(after, k);
    }
  }

  lemma {:induction false} AttemptAt(apply: bool, succeeds: JsString -> bool, ids: seq<JsString>, i: nat)
    requires i < |Attempts(apply, succeeds, ids)|
    ensures i < |ids| && IsAttempt(Attempts(apply, succeeds, ids)[i], ids[i], apply, succeeds(ids[i]))
    ensures i < |Attempts(apply, succeeds, ids)| - 1 ==> succeeds(ids[i])
  {
    if i > 0 { AttemptAt(apply, succeeds, ids[1..], i - 1); }
  }

  lemma OfferedAt(db: Database, o: Options, i: nat)
    requires i < |Offered(db, o)|
    ensures db.Skipped(o.after) + i < |db.ids| && Offered(db, o)[i] == db.ids[db.Skipped(o.after) + i]
  {
  }

  lemma EntryIsAttempt(db: Database, o: Options, succeeds: JsString -> bool, i: nat)
    requires i < |Attempts(o.apply, succeeds, Offered(db, o))|
    ensures db.Skipped(o.after) + i < |db.ids|
    ensures var (entries, id) := (Attempts(o.apply, succeeds, Offered(db, o)), db.ids[db.Skipped(o.after) + i]);
      IsAttempt(entries[i], id, o.apply, succeeds(id)) && (i < |entries| - 1 ==> entries[i].status != Failed)
  {
    AttemptAt(o.apply, succeeds, Offered(db, o), i);
    OfferedAt(db, o, i);
  }

  lemma EntriesAreAttempts(db: Database, o: Options, succeeds: JsString -> bool)
    ensures EntriesAre(Attempts(o.apply, succeeds, Offered(db, o)), db, o.apply, succeeds, db.Skipped(o.after))
  {
    var entries := Attempts(o.apply, succeeds, Offered(db, o));
    forall i: nat | i < |entries|
      ensures db.Skipped(o.after) + i < |db.ids|
      ensures var id := db.ids[db.Skipped(o.after) + i];
        IsAttempt(entries[i], id, o.apply, succeeds(id)) && (i < |entries| - 1 ==> entries[i].status != Failed)
    {
      EntryIsAttempt(db, o, succeeds, i);
    }
    if entries != [] { EntryIsAttempt(db, o, succeeds, |entries| - 1); }
  }

  /** The last attempt failed exactly when some attempt did, and the successes are those before it. */
  lemma DoneAreSuccesses(db: Database, o: Options, x: Outcomes)
    requires ValidOptions(o)
    ensures var m := ManifestOf(db, o, x);
      && (LastFailed(m) <==> Stopped(db, o, x.succeeds))
      && Done(m) == Successes(x.succeeds, Offered(db, o)) == m.processedCount
  {
    var offered := Offered(db, o);
    AttemptsCount(o.apply, x.succeeds, offered);
    AttemptsSucceed(o.apply, x.succeeds, offered);
    var entries := Attempts(o.apply, x.succeeds, offered);
    if entries != [] { AttemptAt(o.apply, x.succeeds, offered, |entries| - 1); }
  }

  lemma AttemptsReachAll(db: Database, o: Options, x: Outcomes)
    requires ValidOptions(o)
    ensures AttemptsReach(ManifestOf(db, o, x), db, o, db.Skipped(o.after))
  {
    AttemptsCount(o.apply, x.succeeds, Offered(db, o));
    DoneAreSuccesses(db, o, x);
  }

  lemma FetchedArePages(db: Database, o: Options, x: Outcomes)
    requires ValidOptions(o)
    ensures FetchedAre(ManifestOf(db, o, x), db, o, db.Skipped(o.after))
  {
    var offered := Offered(db, o);
    AttemptsCount(o.apply, x.succeeds, offered);
    DoneAreSuccesses(db, o, x);
    PagesFetched(o.batchSize, Successes(x.succeeds, offered), |offered|, |db.After(o.after)|);
  }

  /** The first k of count attempts succeed, where count is all that is left or one batch. */
  lemma PagesFetched(size: nat, k: nat, count: nat, left: nat)
    requires size > 0 && k <= count <= left && (count < left ==> count == size)
    ensures var failed := k < count;
      FetchedPages(
        if failed then k + 1 else k, if failed && PageEnd(size, k) < count then PageEnd(size, k) else count,
        size, left, failed)
  {
    PageEndIs(size, k);
    PageOf(size, 0, 0);
  }

  /** The page of position k ends at the first multiple of its size after k. */
  lemma PageEndIs(size: nat, k: nat)
    requires size > 0
    ensures k < PageEnd(size, k) && PageEnd(size, k) % size == 0
    ensures forall j :: k + 1 <= j < PageEnd(size, k) ==> j % size != 0
  {
    var start := k - k % size;
    PageStart(size, k);
    PageOf(size, start, k);
    forall j: nat | k + 1 <= j < PageEnd(size, k) ensures j % size != 0 { PageOf(size, start, j); }
  }

  lemma PageStart(size: nat, k: nat)
    requires size > 0
    ensures k % size <= k && (k - k % size) % size == 0
  {
    var q := k / size;
    assert k == q * size + k % size;
    RemainderIs(size, q, q * size);
  }

  /** The last success is the last id before the failure, if there is one. */
  lemma LastSuccessAt(db: Database, o: Options, succeeds: JsString -> bool)
    ensures var k := Successes(succeeds, Offered(db, o));
      && db.Skipped(o.after) + k <= |db.ids|
      && LastSuccess(Attempts(o.apply, succeeds, Offered(db, o)))
         == if k > 0 then Some(db.ids[db.Skipped(o.after) + k - 1]) else None
  {
    var offered := Offered(db, o);
    AttemptsSucceed(o.apply, succeeds, offered);
    LastSuccessIs(Attempts(o.apply, succeeds, offered));
    var k := Successes(succeeds, offered);
    if k > 0 { OfferedAt(db, o, k - 1); }
  }

  lemma FiguresAreExact(db: Database, o: Options, x: Outcomes)
    requires db.Valid() && ValidOptions(o)
    requires db.Skipped(o.after) + |ManifestOf(db, o, x).entries| <= |db.ids|
    ensures FiguresAre(ManifestOf(db, o, x), db, o, x.enforces, db.Skipped(o.after))
  {
    DoneAreSuccesses(db, o, x);
    RestFollowsNextAfter(db, o, x);
    LastSuccessAt(db, o, x.succeeds);
  }

  /** Every entry and every figure of the manifest, said of the ids themselves. */
  lemma ManifestIsExact(db: Database, o: Options, x: Outcomes)
    requires db.Valid() && ValidOptions(o)
    ensures IsManifest(ManifestOf(db, o, x), db, o, x)
  {
    SkippedStarts(db, o.after);
    EntriesAreAttempts(db, o, x.succeeds);
    AttemptsReachAll(db, o, x);
    FetchedArePages(db, o, x);
    FiguresAreExact(db, o, x);
  }

  method Run(db: Database, o: Options, x: Outcomes) returns (manifest: Manifest)
    requires db.Valid() && ValidOptions(o)
    ensures manifest == ManifestOf(db, o, x)
    ensures IsManifest(manifest, db, o, x)
  {
    ManifestIsExact(db, o, x);
    var entries: seq<Entry> := [];
    var failed := false;
    var cursor := o.after;
    var selectedCount := 0;
    var selectAnotherBatch := true;
    ghost var p: nat := 0;
    while selectAnotherBatch
      invariant Between(db, o, x.succeeds, p, cursor, entries, failed, selectedCount, selectAnotherBatch)
      decreases if selectAnotherBatch then |Offered(db, o)| - p + 1 else 0
    {
      cursor, entries, failed, selectedCount, selectAnotherBatch, p :=
        RunBatch(db, o, x.succeeds, p, cursor, entries, selectedCount);
    }
    if !failed { Ends(db, o, x.succeeds, p, cursor, entries); }
    manifest := Summarize(db, o, x, entries, selectedCount, failed, cursor);
  }

  /** The contract and the figures of the manifest, from the loop's variables. */
  method Summarize(
    db: Database, o: Options, x: Outcomes, entries: seq<Entry>, selectedCount: nat, stopped: bool,
    cursor: Option<JsString>)
    returns (manifest: Manifest)
    requires ValidOptions(o) && Finished(db, o, x.succeeds, cursor, entries, stopped)
    requires selectedCount == Selected(db, o, x.succeeds)
    ensures manifest == ManifestOf(db, o, x)
  {
    var failed := stopped;
    var lastSuccess := LastSuccess(entries);
    var remaining := |db.After(if lastSuccess.Some? then lastSuccess else cursor)|;
    var corpusComplete := !failed && remaining == 0;
    var contractEnforced := false;
    if o.finalize {
      if !corpusComplete {
        failed := true;
      } else {
        contractEnforced := x.enforces(entries);
        if !contractEnforced { failed := true; }
      }
    }
    var nextAfter := if failed then (if lastSuccess.Some? then lastSuccess else o.after) else lastSuccess;
    var complete := !failed && corpusComplete && (!o.finalize || contractEnforced);
    manifest := Manifest(
      entries, selectedCount, |SucceededIds(entries)|, failed, remaining, nextAfter, complete, contractEnforced);
  }

  // ---------------------------------------------------------- what runs promise

  /**
   * With --all two runs that differ only in batch size make the same attempts
   * and report the same, except for how many ids they fetched before they failed.
   */
  lemma BatchSizeIsTransparent(db: Database, o: Options, size: nat, x: Outcomes)
    requires db.Valid() && ValidOptions(o) && o.all && 1 <= size <= 500
    ensures var m, m2 := ManifestOf(db, o, x), ManifestOf(db, o.(batchSize := size), x);
            && m2.(selectedCount := m.selectedCount) == m
            && (!Stopped(db, o, x.succeeds) ==> m2 == m)
  {
    assert Offered(db, o) == db.After(o.after) == Offered(db, o.(batchSize := size));
  }

  /** Every attempted id was fetched, and a failed run fetched less than a page beyond its last attempt. */
  lemma SelectedCoversAttempts(db: Database, o: Options, x: Outcomes)
    requires db.Valid() && ValidOptions(o)
    ensures var m := ManifestOf(db, o, x);
            && |m.entries| <= m.selectedCount <= |db.After(o.after)|
            && m.selectedCount < |m.entries| + o.batchSize
            && (!Stopped(db, o, x.succeeds) ==> m.selectedCount == |m.entries|)
  {
    AttemptsCount(o.apply, x.succeeds, Offered(db, o));
  }

  /** The ids a run processed are the first ones after its start, up to the first failure. */
  lemma ProcessedIsAPrefix(db: Database, o: Options, x: Outcomes)
    requires db.Valid() && ValidOptions(o)
    ensures var m, todo := ManifestOf(db, o, x), db.After(o.after);
            && m.processedCount == Successes(x.succeeds, Offered(db, o)) <= |todo|
            && SucceededIds(m.entries) == todo[..m.processedCount]
  {
    AttemptsSucceed(o.apply, x.succeeds, Offered(db, o));
    var n := Successes(x.succeeds, Offered(db, o));
    assert Offered(db, o)[..n] == db.After(o.after)[..n];
  }

  /** The manifest counts what is left, and what follows nextAfter is what is left. */
  lemma RestFollowsNextAfter(db: Database, o: Options, x: Outcomes)
    requires db.Valid() && ValidOptions(o)
    ensures var m, todo := ManifestOf(db, o, x), db.After(o.after);
            && m.processedCount <= |todo| && m.remaining == |todo| - m.processedCount
            && (m.nextAfter.Some? || m.failed || o.after.None? ==> db.After(m.nextAfter) == todo[m.processedCount..])
  {
    var offered := Offered(db, o);
    var n := Successes(x.succeeds, offered);
    var cursor := if n == 0 then o.after else Some(offered[n - 1]);
    ProcessedIsAPrefix(db, o, x);
    CursorIsLastSuccess(db, o, x.succeeds, n, cursor);
    CursorLeaves(db, o, x.succeeds, n, cursor, Attempts(o.apply, x.succeeds, offered[..n]));
  }

  /** Complete means every id after the start was processed and a contract asked for is enforced. */
  lemma CompleteMeansAllProcessed(db: Database, o: Options, x: Outcomes)
    requires db.Valid() && ValidOptions(o)
    ensures var m := ManifestOf(db, o, x);
            && (m.complete <==> SucceededIds(m.entries) == db.After(o.after) && ContractKept(o, x, m))
            && (m.enforced <==> m.complete && o.finalize)
  {
    ProcessedIsAPrefix(db, o, x);
    RestFollowsNextAfter(db, o, x);
    var m, todo := ManifestOf(db, o, x), db.After(o.after);
    assert m.processedCount == |todo| ==> todo[..m.processedCount] == todo;
    AttemptsSucceed(o.apply, x.succeeds, Offered(db, o));
  }

  /**
   * A failed run resumed from its nextAfter continues where it stopped: the two
   * runs' successes are consecutive ids with no gap and no repeat, and a second
   * run that finishes has processed all the rest. The second run may meet other
   * outcomes than the first.
   */
  lemma ResumingContinues(db: Database, o: Options, x: Outcomes, o2: Options, x2: Outcomes)
    requires db.Valid() && ValidOptions(o) && ValidOptions(o2)
    requires ManifestOf(db, o, x).failed
    requires o2.after == ManifestOf(db, o, x).nextAfter
    ensures var m, m2, todo := ManifestOf(db, o, x), ManifestOf(db, o2, x2), db.After(o.after);
            Continues(m, m2, todo, ContractKept(o2, x2, m2))
  {
    RestFollowsNextAfter(db, o, x);
    ProcessedIsAPrefix(db, o, x);
    ProcessedIsAPrefix(db, o2, x2);
    CompleteMeansAllProcessed(db, o2, x2);
    var m, m2 := ManifestOf(db, o, x), ManifestOf(db, o2, x2);
    RunsJoin(m, m2, db.After(o.after), db.After(o2.after), ContractKept(o2, x2, m2));
  }

  /** A contract that was asked for can be enforced over what was done. */
  predicate ContractKept(o: Options, x: Outcomes, m: Manifest) {
    o.finalize ==> x.enforces(m.entries)
  }

  /**
   * No gap and no repeat between two runs, and the second is complete exactly
   * when together they did it all and a contract it was asked for is kept.
   */
  ghost predicate Continues(m: Manifest, m2: Manifest, todo: seq<JsString>, kept: bool) {
    && m.processedCount + m2.processedCount <= |todo|
    && SucceededIds(m.entries) + SucceededIds(m2.entries) == todo[..m.processedCount + m2.processedCount]
    && (m2.complete <==> m.processedCount + m2.processedCount == |todo| && kept)
  }

  lemma RunsJoin(m: Manifest, m2: Manifest, all: seq<JsString>, rest: seq<JsString>, kept: bool)
    requires m.processedCount <= |all| && SucceededIds(m.entries) == all[..m.processedCount]
    requires rest == all[m.processedCount..]
    requires m2.processedCount <= |rest| && SucceededIds(m2.entries) == rest[..m2.processedCount]
    requires m2.complete <==> SucceededIds(m2.entries) == rest && kept
    ensures Continues(m, m2, all, kept)
  {
    var first, second := SucceededIds(m.entries), SucceededIds(m2.entries);
    assert first + second == all[..|first| + |second|];
    assert |second| == |rest| ==> second == rest;
  }

  /** A successful run reports a cursor exactly when some id followed its start. */
  lemma SuccessfulCursor(db: Database, o: Options, x: Outcomes)
    requires ValidOptions(o) && !ManifestOf(db, o, x).failed
    ensures ManifestOf(db, o, x).nextAfter.Some? <==> db.After(o.after) != []
    ensures ManifestOf(db, o, x).processedCount == |Offered(db, o)|
  {
    var entries := Attempts(o.apply, x.succeeds, Offered(db, o));
    LastSuccessIs(entries);
    AttemptsSucceed(o.apply, x.succeeds, Offered(db, o));
  }

  /**
   * A successful run's nextAfter also continues, except when it was given a
   * start that no id follows: it then names no cursor, and a run from there
   * starts over unless there are no ids at all.
   */
  lemma SuccessfulRunContinuesExactly(db: Database, o: Options, x: Outcomes)
    requires db.Valid() && ValidOptions(o) && !ManifestOf(db, o, x).failed
    ensures var m := ManifestOf(db, o, x);
            m.processedCount <= |db.After(o.after)|
    ensures var m := ManifestOf(db, o, x);
            db.After(m.nextAfter) == db.After(o.after)[m.processedCount..]
            <==> db.After(o.after) != [] || o.after.None? || db.ids == []
  {
    var m, todo := ManifestOf(db, o, x), db.After(o.after);
    ProcessedIsAPrefix(db, o, x);
    SuccessfulCursor(db, o, x);
    if todo != [] || o.after.None? {
      RestFollowsNextAfter(db, o, x);
    } else {
      assert db.After(None) == db.ids;
    }
  }

  /** One id `a`, and a start after it: the run succeeds and its nextAfter starts over. */
  lemma StartPastTheEndStartsOver(x: Outcomes)
    ensures var db := Database([[97]], Leq);
            var o := Options(false, true, false, Some([98]), 100);
            var m := ManifestOf(db, o, x);
            && db.Valid() && ValidOptions(o) && m.complete && db.After(o.after) == [] && db.After(m.nextAfter) == db.ids
  {
    var db := Database([[97]], Leq);
    var o := Options(false, true, false, Some([98]), 100);
    LeqIsOrder();
    assert !Leq([98], [97]);
    assert db.Skipped(o.after) == 1;
    assert db.After(o.after) == [];
    assert Offered(db, o) == [];
    assert db.Skipped(None) == 0;
    assert db.After(None) == db.ids;
  }
}

/** What the loader's checks accept and what its statements require, by JSON keys and cells written out. */
module SeedLoadAnchors {
  import opened Wrappers
  import opened Sequences
  import opened IsoTime
  import opened JsonTrees
  import opened SeededRandom
  import opened SeedTypes
  import opened SeedDispatch
  import opened SeedArtifact
  import opened SeedDatabase
  import opened SeedLoader
  import opened SeedLoadTheory
  import opened SeedLoadable
  import SeedDecode

  // ----- Fresh identities

  /** No row of a table holds the value in a column. */
  ghost predicate Unused(rows: seq<Row>, c: Column, value: Json) {
    forall row :: row in rows ==> At(row, c) != value
  }

  ghost predicate IdUnused(t: Tables, id: Json) {
    && Unused(t.roasts, Id, id) && Unused(t.telemetry, RoastId, id) && Unused(t.artifacts, RoastId, id)
    && Unused(t.reviews, RoastId, id)
    && (forall d :: d in t.tombstones ==> d.cloudRoastId != id)
    && (forall r :: r in t.revisions ==> r.cloudRoastId != id)
  }

  ghost predicate KeyUnused(t: Tables, key: Json) {
    Unused(t.roasts, IdempotencyKey, key) && forall d :: d in t.tombstones ==> d.idempotencyKey != key
  }

  ghost predicate SlugUnused(t: Tables, slug: Json) {
    Unused(t.roasts, PublicSlug, slug) && forall d :: d in t.tombstones ==> d.publicSlug != slug
  }

  /** The checks pass exactly when no id, key or slug to be loaded is anywhere, alive or deleted. */
  lemma FreshExactly(t: Tables, who: Identities)
    ensures Fresh(t, who)
            <==> && (forall id :: id in who.ids && id != JNull ==> IdUnused(t, id))
                 && (forall key :: key in who.keys && key != JNull ==> KeyUnused(t, key))
                 && (forall slug :: slug in who.slugs && slug != JNull ==> SlugUnused(t, slug))
  {
    hide At;
  }

  /** The identities of a load are the three cells of its roasts. */
  lemma IdentitiesRead(roasts: seq<Record>, i: nat)
    requires i < |roasts|
    ensures var who := IdentitiesOf(roasts);
            && |who.ids| == |who.keys| == |who.slugs| == |roasts|
            && who.ids[i] == Get(roasts[i], "id") && who.keys[i] == Get(roasts[i], "idempotency_key")
            && who.slugs[i] == Get(roasts[i], "public_slug")
  {
    hide Get;
  }

  /** A dictionary holds the last value given for a key. */
  lemma {:induction false} LastIdExactly(pairs: seq<(Json, Json)>, i: nat)
    requires i < |pairs| && forall j :: i < j < |pairs| ==> pairs[j].0 != pairs[i].0
    ensures LastId(pairs, pairs[i].0) == pairs[i].1
  {
    if i < |pairs| - 1 { LastIdExactly(pairs[..|pairs| - 1], i); }
  }

  /** The revisions that a roast gets: one for each field that an operator may edit. */
  lemma ThreeRevisions(id: Json, writeSeq: int)
    ensures RevisionsOf(id, writeSeq)
            == [Revision(id, "operator_rating", 0, writeSeq), Revision(id, "operator_notes", 0, writeSeq),
                Revision(id, "contributed_to_learning", 0, writeSeq)]
  {
  }

  // ----- Entering the write plane

  predicate OnlyAt(locks: seq<Lock>, i: nat) {
    i < |locks| && forall j :: 0 <= j < |locks| ==> (locks[j].lockName == "cloud_sync_writer" <==> j == i)
  }

  lemma NoLocks(locks: seq<Lock>)
    ensures |LocksOf(locks)| == 0 <==> forall j :: 0 <= j < |locks| ==> locks[j].lockName != "cloud_sync_writer"
  {
    NothingFiltered(IsLock, locks);
    assert (forall l :: l in locks ==> !IsLock(l)) <==> forall j :: 0 <= j < |locks| ==> !IsLock(locks[j]);
  }

  lemma {:induction false} OneLockAt(locks: seq<Lock>) returns (i: nat)
    requires |LocksOf(locks)| == 1
    ensures OnlyAt(locks, i) && LockSeq(locks) == locks[i].writeSeq
  {
    var init, last := locks[..|locks| - 1], locks[|locks| - 1];
    if IsLock(last) {
      i := |locks| - 1;
      NoLocks(init);
    } else {
      i := OneLockAt(init);
    }
  }

  lemma {:induction false} OnlyLockCounted(locks: seq<Lock>, i: nat)
    requires OnlyAt(locks, i)
    ensures |LocksOf(locks)| == 1 && LockSeq(locks) == locks[i].writeSeq
  {
    var init := locks[..|locks| - 1];
    if i == |locks| - 1 {
      NoLocks(init);
    } else {
      OnlyLockCounted(init, i);
    }
  }

  /** The plane can be entered exactly with one lock row and a next sequence that doubles count exactly. */
  lemma EnterExactly(t: Tables, server: Server)
    ensures CanEnter(t, server)
            <==> && server.readsAreGlobal
                 && exists i: nat :: OnlyAt(t.coordination, i)
                      && 0 <= t.coordination[i].writeSeq + 1 <= 9007199254740991
  {
    hide LocksOf, LockSeq;
    if CanEnter(t, server) { var i := OneLockAt(t.coordination); }
    if i: nat :| OnlyAt(t.coordination, i) && 0 <= t.coordination[i].writeSeq + 1 <= 9007199254740991 {
      OnlyLockCounted(t.coordination, i);
    }
  }

  // ----- Required columns

  predicate Has(record: Record, key: string) {
    Get(record, key) != JNull
  }

  /** The keys without which an insert is refused; where the statement supplies a missing id, it is not among them. */
  predicate HasRequired(record: Record, table: SeedTable) {
    match table
    case CloudRoasts =>
      && Has(record, "id") && Has(record, "idempotency_key") && Has(record, "public_slug")
      && Has(record, "visibility") && Has(record, "summary") && Has(record, "contributed_to_learning")
      && Has(record, "created_at") && Has(record, "updated_at")
    case RoastTelemetry => Has(record, "roast_id") && Has(record, "elapsed_s")
    case RoastArtifacts =>
      Has(record, "roast_id") && Has(record, "kind") && Has(record, "stage_path") && Has(record, "created_at")
    case TastingReviews => Has(record, "roast_id") && Has(record, "score") && Has(record, "created_at")
    case ReferenceRoastSummaries =>
      && Has(record, "bean_origin") && Has(record, "roast_level") && Has(record, "roast_count")
      && Has(record, "review_count") && Has(record, "updated_at")
  }

  lemma RoastRequired(record: Record)
    ensures RecordAllowed(CloudRoasts, record) <==> HasRequired(record, CloudRoasts)
  {
    hide Name, Get;
    SeedDecode.RoastFirstNames();
    SeedDecode.RoastMiddleNames();
    SeedDecode.RoastLastNames();
  }

  lemma ChildRequired(record: Record)
    ensures RecordAllowed(RoastTelemetry, record) <==> HasRequired(record, RoastTelemetry)
    ensures RecordAllowed(RoastArtifacts, record) <==> HasRequired(record, RoastArtifacts)
  {
    hide Name, Get;
    SeedDecode.TelemetryFirstNames();
    SeedDecode.ArtifactNames();
  }

  lemma ReviewRequired(record: Record)
    ensures RecordAllowed(TastingReviews, record) <==> HasRequired(record, TastingReviews)
  {
    hide Name, Get;
    SeedDecode.ReviewFirstNames();
    SeedDecode.ReviewLastNames();
  }

  lemma SummaryRequired(record: Record)
    ensures RecordAllowed(ReferenceRoastSummaries, record) <==> HasRequired(record, ReferenceRoastSummaries)
  {
    hide Name, Get;
    SeedDecode.SummaryFirstNames();
    SeedDecode.SummarySecondNames();
    SeedDecode.SummaryLastNames();
  }

  /** An insert goes through exactly when its record has the keys that its table requires. */
  lemma InsertedExactly(record: Record, table: SeedTable, uuid: string)
    ensures InsertedRow(table, Params(record, table), uuid).Some? <==> HasRequired(record, table)
  {
    hide BindUpTo, Columns, HasRequired, RowAllowed, RecordAllowed, RowOf, WithId, Params;
    BindsEveryColumn(record, table);
    ParamsCount(record, table);
    StoredRowAllowed(table, record, uuid);
    RoastRequired(record);
    ChildRequired(record);
    ReviewRequired(record);
    SummaryRequired(record);
  }

  lemma ParamsCount(record: Record, table: SeedTable)
    ensures |Params(record, table)| == |Columns(table)|
  {
    hide Columns;
  }

  // ----- What is accepted

  predicate TextUnder(record: Record, key: string) {
    Get(record, key).JStr? && Get(record, key).s != ""
  }

  ghost predicate HasParent(child: Record, roasts: seq<Record>) {
    exists i :: 0 <= i < |roasts| && Get(child, "roast_id") == Get(roasts[i], "id")
  }

  /** A hash is kept only as 64 lower-case hexadecimal digits, and only for the first 30 days of its review. */
  predicate HashKept(review: Record, now: int) {
    var hash, created := Get(review, "submitted_ip_hash"), Get(review, "created_at");
    hash == JNull
    || (&& hash.JStr? && |hash.s| == 64 && AllLowerHex(hash.s)
        && created.JStr? && StrictIso(created.s) && EpochMicroseconds(created.s).Some?
        && 0 <= now - EpochMicroseconds(created.s).value < 2_592_000_000_000)
  }

  ghost predicate RoastsAccepted(roasts: seq<Record>) {
    && roasts != [] && (forall i :: 0 <= i < |roasts| ==> TextUnder(roasts[i], "id"))
    && forall i, j :: 0 <= i < j < |roasts| ==> Get(roasts[i], "id") != Get(roasts[j], "id")
  }

  ghost predicate ChildrenAccepted(children: seq<Record>, roasts: seq<Record>) {
    forall i :: 0 <= i < |children| ==> HasParent(children[i], roasts)
  }

  ghost predicate SummariesAccepted(summaries: seq<Record>) {
    && (forall i :: 0 <= i < |summaries| ==>
        TextUnder(summaries[i], "bean_origin") && TextUnder(summaries[i], "roast_level"))
    && forall i, j :: 0 <= i < j < |summaries| ==>
         || Get(summaries[i], "bean_origin") != Get(summaries[j], "bean_origin")
         || Get(summaries[i], "roast_level") != Get(summaries[j], "roast_level")
  }

  lemma RoastsAcceptedExactly(roasts: seq<Record>)
    ensures RoastIdsOk(roasts) <==> RoastsAccepted(roasts)
  {
    hide Get, Name;
    SeedDecode.RoastFirstNames();
    var ids := ValuesIn(roasts, Id);
    assert forall i :: 0 <= i < |roasts| ==> ids[i] == Get(roasts[i], "id");
  }

  lemma ChildrenAcceptedExactly(children: seq<Record>, roasts: seq<Record>)
    ensures ParentsOk(roasts, children) <==> ChildrenAccepted(children, roasts)
  {
    hide Get, Name;
    SeedDecode.RoastFirstNames();
    SeedDecode.TelemetryFirstNames();
    var ids := ValuesIn(roasts, Id);
    assert forall i :: 0 <= i < |roasts| ==> ids[i] == Get(roasts[i], "id");
    forall i | 0 <= i < |children| ensures Get(children[i], "roast_id") in ids <==> HasParent(children[i], roasts) {
    }
  }

  lemma HashKeptExactly(review: Record, now: int)
    ensures HashOk(review, now) <==> HashKept(review, now)
  {
    hide Get, Name, StrictIso, EpochMicroseconds, AllLowerHex;
    SeedDecode.ReviewMiddleNames();
    SeedDecode.ReviewLastNames();
  }

  lemma SummariesAcceptedExactly(summaries: seq<Record>)
    ensures GroupsOk(summaries) <==> SummariesAccepted(summaries)
  {
    hide Get, Name;
    SeedDecode.SummaryFirstNames();
    assert forall i :: 0 <= i < |summaries| ==>
      GroupsOf(summaries)[i] == (Get(summaries[i], "bean_origin"), Get(summaries[i], "roast_level"));
  }

  /** The conditions on the rows of an accepted artifact, by key. */
  ghost predicate RowsAccepted(tables: TableRows, now: int)
    requires Complete(tables)
  {
    var roasts := tables[CloudRoasts];
    && RoastsAccepted(roasts)
    && ChildrenAccepted(tables[RoastTelemetry], roasts) && ChildrenAccepted(tables[RoastArtifacts], roasts)
    && ChildrenAccepted(tables[TastingReviews], roasts)
    && (forall i :: 0 <= i < |tables[TastingReviews]| ==> HashKept(tables[TastingReviews][i], now))
    && SummariesAccepted(tables[ReferenceRoastSummaries])
  }

  lemma RowsAcceptedExactly(tables: TableRows, now: int)
    requires Complete(tables)
    ensures RowsOk(tables, now) <==> RowsAccepted(tables, now)
  {
    hide RoastIdsOk, RoastsAccepted, ParentsOk, ChildrenAccepted, HashOk, HashKept, GroupsOk, SummariesAccepted;
    RoastsAcceptedExactly(tables[CloudRoasts]);
    ChildrenAcceptedExactly(tables[RoastTelemetry], tables[CloudRoasts]);
    ChildrenAcceptedExactly(tables[RoastArtifacts], tables[CloudRoasts]);
    ChildrenAcceptedExactly(tables[TastingReviews], tables[CloudRoasts]);
    forall review { HashKeptExactly(review, now); }
    SummariesAcceptedExactly(tables[ReferenceRoastSummaries]);
  }

  /** An artifact is accepted exactly when its grammar is right and its rows meet the conditions. */
  lemma AcceptedExactly(artifact: Json, target: string, now: int)
    ensures ArtifactAccepted(artifact, target, now)
            <==> && GrammarOk(artifact, target)
                 && Complete(AcceptedTables(artifact, target)) && RowsAccepted(AcceptedTables(artifact, target), now)
  {
    hide GrammarOk, RowsOk, RowsAccepted, TablesUpTo;
    if GrammarOk(artifact, target) {
      AcceptedIs(artifact, target);
      RowsAcceptedExactly(AcceptedTables(artifact, target), now);
    }
  }
}

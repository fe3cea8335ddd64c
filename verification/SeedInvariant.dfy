/** The live audit's identity, tombstone, coordination and revision branches, and that every load keeps them clear. */
module SeedInvariant {
  import opened Wrappers
  import opened Sequences
  import opened JsonTrees
  import opened SeedTypes
  import opened SeedDispatch
  import opened SeedArtifact
  import opened SeedDatabase
  import opened SeedLoader
  import opened SeedLoadTheory
  import opened SeedLoadKeeps

  /** SQL equality: null equals nothing. */
  predicate SqlEq(a: Json, b: Json) {
    a != JNull && a == b
  }

  function ColumnOf(rows: seq<Row>, c: Column): seq<Json> {
    Map((row: Row) => At(row, c), rows)
  }

  predicate RoastIdentitiesUnique(roasts: seq<Row>) {
    && Distinct(ColumnOf(roasts, Id))
    && Distinct(ColumnOf(roasts, IdempotencyKey))
    && Distinct(ColumnOf(roasts, PublicSlug))
  }

  predicate Deleted(row: Row, d: Tombstone) {
    || SqlEq(d.idempotencyKey, At(row, IdempotencyKey))
    || SqlEq(d.publicSlug, At(row, PublicSlug))
    || SqlEq(d.cloudRoastId, At(row, Id))
  }

  ghost predicate NoneDeleted(t: Tables) {
    forall row, d :: row in t.roasts && d in t.tombstones ==> !Deleted(row, d)
  }

  predicate TombstonesUnique(tombstones: seq<Tombstone>) {
    && Distinct(Map((d: Tombstone) => d.idempotencyKey, tombstones))
    && Distinct(Map((d: Tombstone) => d.publicSlug, tombstones))
    && Distinct(Filter(Present, Map((d: Tombstone) => d.cloudRoastId, tombstones)))
  }

  predicate Present(j: Json) {
    j != JNull
  }

  predicate CoordinationOk(locks: seq<Lock>) {
    |locks| == 1 && IsLock(locks[0]) && 0 <= locks[0].writeSeq <= MAX_WRITE_SEQ
  }

  function RevisionsAbout(revisions: seq<Revision>, id: Json): seq<Revision> {
    Filter((f: Revision) => SqlEq(f.cloudRoastId, id), revisions)
  }

  /** Exactly three rows, and every known field among them. */
  predicate ThreeKnownFields(revisions: seq<Revision>) {
    |revisions| == 3 && forall field :: field in REVISION_FIELDS ==>
      exists i :: 0 <= i < 3 && revisions[i].fieldName == field
  }

  ghost predicate RevisionsComplete(t: Tables) {
    forall row :: row in t.roasts ==> ThreeKnownFields(RevisionsAbout(t.revisions, At(row, Id)))
  }

  ghost predicate RevisionOk(f: Revision, roasts: seq<Row>, writeSeq: int) {
    && f.fieldName in REVISION_FIELDS
    && (exists row :: row in roasts && SqlEq(At(row, Id), f.cloudRoastId))
    && 0 <= f.acceptedRevision <= MAX_WRITE_SEQ
    && 0 <= f.acceptedWriteSeq <= writeSeq
  }

  ghost predicate RevisionsOk(t: Tables) {
    forall f :: f in t.revisions ==> RevisionOk(f, t.roasts, LockSeq(t.coordination))
  }

  ghost predicate TombstoneSeqsOk(t: Tables) {
    forall d :: d in t.tombstones && d.deletionWriteSeq.Some? ==>
      0 <= d.deletionWriteSeq.value <= LockSeq(t.coordination)
  }

  /** No audited violation of the relational kind, and one summary row a group. */
  ghost predicate DatabaseInvariant(t: Tables) {
    && RoastIdentitiesUnique(t.roasts)
    && NoneDeleted(t)
    && TombstonesUnique(t.tombstones)
    && CoordinationOk(t.coordination)
    && RevisionsComplete(t)
    && RevisionsOk(t)
    && TombstoneSeqsOk(t)
    && UniqueGroups(t.summaries)
  }

  // ----- Identities

  lemma ColumnConcat(a: seq<Row>, b: seq<Row>, c: Column)
    ensures ColumnOf(a + b, c) == ColumnOf(a, c) + ColumnOf(b, c)
  {
    hide At;
  }

  /** A stored row answers every column with its record's own value; only a coalesced id may differ. */
  lemma StoredCellIs(table: SeedTable, rows: seq<Record>, server: Server, k: nat, i: nat, c: Column)
    requires i < |rows| && c in Columns(table) && (c == Id ==> !CoalescesId(table) || Get(rows[i], Name(Id)) != JNull)
    ensures At(StoredRows(table, rows, server, k)[i], c) == Get(rows[i], Name(c))
  {
    hide Name, Columns, Get;
  }

  lemma StoredColumn(rows: seq<Record>, server: Server, k: nat, c: Column)
    requires c in Columns(CloudRoasts)
    ensures ColumnOf(StoredRows(CloudRoasts, rows, server, k), c) == ValuesIn(rows, c)
  {
    hide Name, Columns, Get, StoredRows;
    forall i | 0 <= i < |rows|
      ensures ColumnOf(StoredRows(CloudRoasts, rows, server, k), c)[i] == ValuesIn(rows, c)[i]
    {
      StoredCellIs(CloudRoasts, rows, server, k, i, c);
    }
  }

  /** No old value of an identity column is among the loaded values. */
  lemma ColumnStaysDistinct(old_: seq<Row>, new_: seq<Row>, c: Column, values: seq<Json>)
    requires Distinct(ColumnOf(old_, c)) && ColumnOf(new_, c) == values && Distinct(values)
    requires forall i :: 0 <= i < |values| ==> values[i] != JNull
    requires forall row :: row in old_ ==> !In(At(row, c), values)
    ensures Distinct(ColumnOf(old_ + new_, c))
  {
    hide At;
    ColumnConcat(old_, new_, c);
    forall x | x in ColumnOf(old_, c) ensures x !in values {
      var i :| 0 <= i < |old_| && ColumnOf(old_, c)[i] == x;
      assert !In(At(old_[i], c), values);
    }
    DistinctConcat(ColumnOf(old_, c), values);
  }

  predicate AllPresent(values: seq<Json>) {
    forall i :: 0 <= i < |values| ==> values[i] != JNull
  }

  /** Allowed rows have every identity. */
  lemma AllowedIdentities(rows: seq<Record>, server: Server, k: nat)
    requires forall row :: row in StoredRows(CloudRoasts, rows, server, k) ==> RowAllowed(CloudRoasts, row)
    ensures AllPresent(ValuesIn(rows, Id)) && AllPresent(ValuesIn(rows, IdempotencyKey))
            && AllPresent(ValuesIn(rows, PublicSlug))
  {
    hide Name, StoredRows, Get, Columns;
    var stored := StoredRows(CloudRoasts, rows, server, k);
    IdentityColumns();
    forall i | 0 <= i < |rows|
      ensures ValuesIn(rows, Id)[i] != JNull && ValuesIn(rows, IdempotencyKey)[i] != JNull
              && ValuesIn(rows, PublicSlug)[i] != JNull
    {
      assert RowAllowed(CloudRoasts, stored[i]);
      StoredCellIs(CloudRoasts, rows, server, k, i, Id);
      StoredCellIs(CloudRoasts, rows, server, k, i, IdempotencyKey);
      StoredCellIs(CloudRoasts, rows, server, k, i, PublicSlug);
    }
  }

  lemma IdentityColumns()
    ensures Id in Columns(CloudRoasts) && IdempotencyKey in Columns(CloudRoasts) && PublicSlug in Columns(CloudRoasts)
  {
    var columns := Columns(CloudRoasts);
    assert columns[0] == Id && columns[1] == IdempotencyKey && columns[3] == PublicSlug;
  }

  lemma IdentitiesStayUnique(tables: TableRows, t: Tables, server: Server, k: nat)
    requires Complete(tables) && Fresh(t, IdentitiesOf(tables[CloudRoasts])) && IdentitiesDistinct(tables[CloudRoasts])
    requires RowsAllowed(tables, CloudRoasts, server, k) && RoastIdentitiesUnique(t.roasts)
    ensures RoastIdentitiesUnique(t.roasts + LoadedRows(tables, CloudRoasts, server, k))
  {
    hide Distinct, In, At, Columns, StoredRows, RowAllowed, ValuesIn, ColumnOf;
    var roasts, rows := tables[CloudRoasts], LoadedRows(tables, CloudRoasts, server, k);
    IdentityColumns();
    AllowedIdentities(roasts, server, k + 7);
    StoredColumn(roasts, server, k + 7, Id);
    StoredColumn(roasts, server, k + 7, IdempotencyKey);
    StoredColumn(roasts, server, k + 7, PublicSlug);
    ColumnStaysDistinct(t.roasts, rows, Id, ValuesIn(roasts, Id));
    ColumnStaysDistinct(t.roasts, rows, IdempotencyKey, ValuesIn(roasts, IdempotencyKey));
    ColumnStaysDistinct(t.roasts, rows, PublicSlug, ValuesIn(roasts, PublicSlug));
  }

  lemma LoadedIdentity(tables: TableRows, server: Server, k: nat, row: Row)
    requires Complete(tables) && row in LoadedRows(tables, CloudRoasts, server, k)
    ensures var who := IdentitiesOf(tables[CloudRoasts]);
            At(row, Id) in who.ids && At(row, IdempotencyKey) in who.keys && At(row, PublicSlug) in who.slugs
  {
    hide At, Columns, StoredRows, Get, Name;
    var roasts, stored := tables[CloudRoasts], LoadedRows(tables, CloudRoasts, server, k);
    var i :| 0 <= i < |stored| && stored[i] == row;
    IdentityColumns();
    StoredCellIs(CloudRoasts, roasts, server, k + 7, i, Id);
    StoredCellIs(CloudRoasts, roasts, server, k + 7, i, IdempotencyKey);
    StoredCellIs(CloudRoasts, roasts, server, k + 7, i, PublicSlug);
    assert ValuesIn(roasts, Id)[i] in ValuesIn(roasts, Id);
    assert ValuesIn(roasts, IdempotencyKey)[i] in ValuesIn(roasts, IdempotencyKey);
    assert ValuesIn(roasts, PublicSlug)[i] in ValuesIn(roasts, PublicSlug);
  }

  lemma NothingDeletedIsLoaded(tables: TableRows, t: Tables, server: Server, k: nat)
    requires Complete(tables) && Fresh(t, IdentitiesOf(tables[CloudRoasts])) && NoneDeleted(t)
    ensures NoneDeleted(WithLoadedRows(tables, t, server, k))
  {
    hide At, LoadedRows, NewRevisions, IdentitiesOf;
    var t' := WithLoadedRows(tables, t, server, k);
    forall row, d | row in t'.roasts && d in t'.tombstones ensures !Deleted(row, d) {
      if row !in t.roasts {
        LoadedIdentity(tables, server, k, row);
        assert !TombstoneMatches(d, IdentitiesOf(tables[CloudRoasts]).ids, IdentitiesOf(tables[CloudRoasts]).keys,
                                 IdentitiesOf(tables[CloudRoasts]).slugs);
      }
    }
  }

  // ----- Revisions

  lemma RevisionMembers(id: Json, writeSeq: int, f: Revision)
    ensures f in RevisionsOf(id, writeSeq) ==>
            f == Revision(id, f.fieldName, 0, writeSeq) && f.fieldName in REVISION_FIELDS
  {
  }

  lemma {:induction false} NewRevisionMembers(ids: seq<Json>, writeSeq: int, f: Revision)
    requires f in NewRevisions(ids, writeSeq)
    ensures f == Revision(f.cloudRoastId, f.fieldName, 0, writeSeq) && f.fieldName in REVISION_FIELDS
            && f.cloudRoastId in ids
  {
    hide RevisionsOf;
    var init, last := ids[..|ids| - 1], ids[|ids| - 1];
    RevisionMembers(last, writeSeq, f);
    if f in NewRevisions(init, writeSeq) { NewRevisionMembers(init, writeSeq, f); }
  }

  lemma AboutConcat(a: seq<Revision>, b: seq<Revision>, id: Json)
    ensures RevisionsAbout(a + b, id) == RevisionsAbout(a, id) + RevisionsAbout(b, id)
  {
    FilterConcat((f: Revision) => SqlEq(f.cloudRoastId, id), a, b);
  }

  lemma AboutNone(a: seq<Revision>, id: Json)
    requires forall f :: f in a ==> !SqlEq(f.cloudRoastId, id)
    ensures RevisionsAbout(a, id) == []
  {
    NothingFiltered((f: Revision) => SqlEq(f.cloudRoastId, id), a);
  }

  lemma AboutAll(a: seq<Revision>, id: Json)
    requires forall f :: f in a ==> SqlEq(f.cloudRoastId, id)
    ensures RevisionsAbout(a, id) == a
  {
    FilterAll((f: Revision) => SqlEq(f.cloudRoastId, id), a);
  }

  lemma AboutItself(id: Json, writeSeq: int)
    requires id != JNull
    ensures RevisionsAbout(RevisionsOf(id, writeSeq), id) == RevisionsOf(id, writeSeq)
  {
    hide RevisionsAbout, RevisionsOf;
    forall f | f in RevisionsOf(id, writeSeq) ensures SqlEq(f.cloudRoastId, id) { RevisionMembers(id, writeSeq, f); }
    AboutAll(RevisionsOf(id, writeSeq), id);
  }

  lemma AboutAnother(last: Json, writeSeq: int, id: Json)
    requires last != id
    ensures RevisionsAbout(RevisionsOf(last, writeSeq), id) == []
  {
    hide RevisionsAbout, RevisionsOf;
    forall f | f in RevisionsOf(last, writeSeq)
      ensures !SqlEq(f.cloudRoastId, id)
    {
      RevisionMembers(last, writeSeq, f);
    }
    AboutNone(RevisionsOf(last, writeSeq), id);
  }

  lemma AboutUnlisted(ids: seq<Json>, writeSeq: int, id: Json)
    requires id !in ids
    ensures RevisionsAbout(NewRevisions(ids, writeSeq), id) == []
  {
    hide RevisionsAbout, NewRevisions;
    forall f | f in NewRevisions(ids, writeSeq)
      ensures !SqlEq(f.cloudRoastId, id)
    {
      NewRevisionMembers(ids, writeSeq, f);
    }
    AboutNone(NewRevisions(ids, writeSeq), id);
  }

  /** Of the loaded revisions, those about one loaded roast are its own three. */
  lemma {:induction false} NewRevisionsAbout(ids: seq<Json>, writeSeq: int, id: Json)
    requires Distinct(ids) && id in ids && id != JNull
    ensures RevisionsAbout(NewRevisions(ids, writeSeq), id) == RevisionsOf(id, writeSeq)
  {
    hide RevisionsAbout, RevisionsOf;
    var init, last := ids[..|ids| - 1], ids[|ids| - 1];
    assert ids == init + [last];
    DistinctAppend(init, last);
    AboutConcat(NewRevisions(init, writeSeq), RevisionsOf(last, writeSeq), id);
    if last == id {
      AboutUnlisted(init, writeSeq, id);
      AboutItself(id, writeSeq);
    } else {
      NewRevisionsAbout(init, writeSeq, id);
      AboutAnother(last, writeSeq, id);
    }
  }

  lemma OwnThreeFields(id: Json, writeSeq: int)
    ensures ThreeKnownFields(RevisionsOf(id, writeSeq))
  {
    var r := RevisionsOf(id, writeSeq);
    assert r[0].fieldName == REVISION_FIELDS[0] && r[1].fieldName == REVISION_FIELDS[1]
           && r[2].fieldName == REVISION_FIELDS[2];
  }

  lemma NoFieldsIsNotThree()
    ensures !ThreeKnownFields([])
  {
  }

  lemma RevisionsStayComplete(tables: TableRows, t: Tables, server: Server, k: nat)
    requires Complete(tables) && Fresh(t, IdentitiesOf(tables[CloudRoasts])) && IdentitiesDistinct(tables[CloudRoasts])
    requires RowsAllowed(tables, CloudRoasts, server, k) && RevisionsComplete(t)
    ensures RevisionsComplete(WithLoadedRows(tables, t, server, k))
  {
    hide At, LoadedRows, NewRevisions, ThreeKnownFields, RevisionsAbout, RowAllowed, Distinct, RoastMatches,
      TombstoneMatches, ValuesIn, RevisionsOf, WriteSeqAfter;
    var roasts, t', ids, writeSeq := tables[CloudRoasts], WithLoadedRows(tables, t, server, k),
      ValuesIn(tables[CloudRoasts], Id), WriteSeqAfter(t);
    forall row | row in t'.roasts ensures ThreeKnownFields(RevisionsAbout(t'.revisions, At(row, Id))) {
      var id := At(row, Id);
      AboutConcat(t.revisions, NewRevisions(ids, writeSeq), id);
      var before, added := RevisionsAbout(t.revisions, id), RevisionsAbout(NewRevisions(ids, writeSeq), id);
      if row in t.roasts {
        OldRoastUnlisted(t, IdentitiesOf(roasts), row);
        AboutUnlisted(ids, writeSeq, id);
        assert before + added == before;
      } else {
        LoadedIdentity(tables, server, k, row);
        LoadedIdPresent(tables, server, k, row);
        NewRevisionsAbout(ids, writeSeq, id);
        AboutNone(t.revisions, id);
        OwnThreeFields(id, writeSeq);
        assert before + added == added;
      }
    }
  }

  lemma OldRoastUnlisted(t: Tables, who: Identities, row: Row)
    requires Fresh(t, who) && RevisionsComplete(t) && row in t.roasts
    ensures At(row, Id) !in who.ids
  {
    hide At;
    if At(row, Id) == JNull {
      AboutNone(t.revisions, JNull);
      NoFieldsIsNotThree();
    }
    assert !RoastMatches(row, who.ids, who.keys, who.slugs);
  }

  lemma LoadedIdPresent(tables: TableRows, server: Server, k: nat, row: Row)
    requires Complete(tables) && RowsAllowed(tables, CloudRoasts, server, k)
             && row in LoadedRows(tables, CloudRoasts, server, k)
    ensures At(row, Id) != JNull
  {
    hide LoadedRows;
  }

  lemma RevisionStaysOk(f: Revision, roasts: seq<Row>, added: seq<Row>, low: int, high: int)
    requires RevisionOk(f, roasts, low) && low <= high
    ensures RevisionOk(f, roasts + added, high)
  {
    hide At;
    var row :| row in roasts && SqlEq(At(row, Id), f.cloudRoastId);
    assert row in roasts + added;
  }

  lemma NewRevisionOk(tables: TableRows, t: Tables, server: Server, k: nat, f: Revision, writeSeq: int)
    requires Complete(tables) && RowsAllowed(tables, CloudRoasts, server, k)
    requires f in LoadedRevisions(tables, t) && 0 <= WriteSeqAfter(t) <= writeSeq
    ensures RevisionOk(f, t.roasts + LoadedRows(tables, CloudRoasts, server, k), writeSeq)
  {
    hide At, NewRevisions, StoredRows, RowAllowed, Columns, Get, Name, WriteSeqAfter;
    var roasts, rows := tables[CloudRoasts], LoadedRows(tables, CloudRoasts, server, k);
    NewRevisionMembers(ValuesIn(roasts, Id), WriteSeqAfter(t), f);
    var i :| 0 <= i < |roasts| && ValuesIn(roasts, Id)[i] == f.cloudRoastId;
    IdentityColumns();
    StoredCellIs(CloudRoasts, roasts, server, k + 7, i, Id);
    assert rows[i] in rows && rows[i] in t.roasts + rows;
    LoadedIdPresent(tables, server, k, rows[i]);
    assert SqlEq(At(rows[i], Id), f.cloudRoastId);
  }

  lemma RevisionsStayOk(tables: TableRows, t: Tables, t': Tables, server: Server, k: nat)
    requires Complete(tables) && RowsAllowed(tables, CloudRoasts, server, k) && RevisionsOk(t)
    requires t'.roasts == t.roasts + LoadedRows(tables, CloudRoasts, server, k)
    requires t'.revisions == t.revisions + LoadedRevisions(tables, t)
    requires LockSeq(t.coordination) <= LockSeq(t'.coordination) && 0 <= WriteSeqAfter(t) <= LockSeq(t'.coordination)
    ensures RevisionsOk(t')
  {
    hide At, LoadedRows, LoadedRevisions, RowsAllowed, RevisionOk, LockSeq, WriteSeqAfter;
    forall f | f in t'.revisions ensures RevisionOk(f, t'.roasts, LockSeq(t'.coordination)) {
      if f in t.revisions {
        RevisionStaysOk(f, t.roasts, LoadedRows(tables, CloudRoasts, server, k), LockSeq(t.coordination),
                        LockSeq(t'.coordination));
      } else {
        NewRevisionOk(tables, t, server, k, f, LockSeq(t'.coordination));
      }
    }
  }

  // ----- The theorem

  lemma CoordinationStaysOk(locks: seq<Lock>, n: nat)
    requires CoordinationOk(locks) && LockSeq(locks) + n <= MAX_WRITE_SEQ
    ensures CoordinationOk(BumpedBy(locks, n)) && LockSeq(BumpedBy(locks, n)) == LockSeq(locks) + n
            && LockSeq(locks) >= 0
  {
    assert locks == [locks[0]];
  }

  /** A load that goes through keeps every audited relation between the tables. */
  lemma LoadKeepsInvariant(tables: TableRows, t: Tables, server: Server, k: nat)
    requires Complete(tables) && IdsPresent(tables[CloudRoasts]) && IdentitiesDistinct(tables[CloudRoasts])
    requires LoadResult(tables, t, server, k).Some? && DatabaseInvariant(t)
    ensures DatabaseInvariant(LoadResult(tables, t, server, k).value)
  {
    hide LoadResult, CanEnter, Fresh, UniqueGroups, GroupsLoaded, RowsAllowed, IdsPresent, NewRevisions, BumpedBy,
      LockSeq, RevisionsOk, RevisionsComplete, TombstonesUnique, CoordinationOk, RoastIdentitiesUnique,
      IdentitiesDistinct, LoadedRows, LoadedRevisions, Deleted, IdentitiesOf;
    var t' := LoadResult(tables, t, server, k).value;
    LoadResultShape(tables, t, server, k);
    IdentitiesStayUnique(tables, t, server, k);
    NothingDeletedIsLoaded(tables, t, server, k);
    RevisionsStayComplete(tables, t, server, k);
    CoordinationStaysOk(t.coordination, 1 + |tables[ReferenceRoastSummaries]|);
    RevisionsStayOk(tables, t, t', server, k);
    SameRevisions(WithLoadedRows(tables, t, server, k), t');
  }

  lemma SameRevisions(a: Tables, b: Tables)
    requires a.roasts == b.roasts && a.revisions == b.revisions
    ensures RevisionsComplete(a) <==> RevisionsComplete(b)
  {
    hide RevisionsAbout, ThreeKnownFields, At;
  }
}

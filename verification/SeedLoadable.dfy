/** Exactly when a load goes through, in terms that hold or fail before the first statement. */
module SeedLoadable {
  import opened Wrappers
  import opened Sequences
  import opened JsonTrees
  import opened SeedTypes
  import opened SeedDispatch
  import opened SeedArtifact
  import opened SeedDatabase
  import opened SeedLoader
  import opened SeedLoadTheory
  import opened SeedLoadKeeps
  import opened SeedInvariant

  /** The record supplies every column that may not be null. */
  predicate RecordAllowed(table: SeedTable, record: Record) {
    forall c :: c in NotNullColumns(table) ==> Get(record, Name(c)) != JNull || (c == Id && CoalescesId(table))
  }

  predicate RecordsAllowed(table: SeedTable, records: seq<Record>) {
    forall i :: 0 <= i < |records| ==> RecordAllowed(table, records[i])
  }

  /** The condition for a load to go through. */
  ghost predicate Loadable(tables: TableRows, t: Tables, server: Server)
    requires Complete(tables)
  {
    && CanEnter(t, server)
    && LockSeq(t.coordination) + 1 + |tables[ReferenceRoastSummaries]| <= MAX_WRITE_SEQ
    && Fresh(t, IdentitiesOf(tables[CloudRoasts]))
    && forall table :: table in TABLE_ORDER ==> RecordsAllowed(table, tables[table])
  }

  lemma NotNullRoastColumn(c: Column)
    requires c in NotNullColumns(CloudRoasts)
    ensures c in Columns(CloudRoasts)
  {
    var columns := Columns(CloudRoasts);
    assert columns[0] == Id && columns[1] == IdempotencyKey && columns[3] == PublicSlug && columns[4] == Visibility;
    assert columns[10] == Summary && columns[13] == ContributedToLearning && columns[15] == CreatedAt
           && columns[16] == UpdatedAt;
  }

  lemma NotNullSummaryColumn(c: Column)
    requires c in NotNullColumns(ReferenceRoastSummaries)
    ensures c in Columns(ReferenceRoastSummaries)
  {
    var columns := Columns(ReferenceRoastSummaries);
    assert columns[0] == Id && columns[1] == BeanOrigin && columns[2] == RoastLevel;
    assert columns[3] == RoastCount && columns[4] == ReviewCount && columns[14] == UpdatedAt;
  }

  lemma NotNullReviewColumn(c: Column)
    requires c in NotNullColumns(TastingReviews)
    ensures c in Columns(TastingReviews)
  {
    var columns := Columns(TastingReviews);
    assert columns[0] == Id && columns[1] == RoastId && columns[3] == Score && columns[12] == CreatedAt;
  }

  lemma NotNullShortColumn(table: SeedTable, c: Column)
    requires c in NotNullColumns(table) && (table == RoastTelemetry || table == RoastArtifacts)
    ensures c in Columns(table)
  {
    var columns := Columns(table);
    assert table == RoastTelemetry ==> columns[0] == RoastId && columns[1] == ElapsedS;
    assert table == RoastArtifacts ==>
      columns[0] == Id && columns[1] == RoastId && columns[2] == Kind && columns[3] == StagePath
      && columns[5] == CreatedAt;
  }

  lemma NotNullIsColumn(table: SeedTable, c: Column)
    requires c in NotNullColumns(table)
    ensures c in Columns(table)
  {
    hide Columns, NotNullColumns;
    match table
    case CloudRoasts => NotNullRoastColumn(c);
    case ReferenceRoastSummaries => NotNullSummaryColumn(c);
    case TastingReviews => NotNullReviewColumn(c);
    case _ => NotNullShortColumn(table, c);
  }

  lemma StoredRowAllowed(table: SeedTable, record: Record, uuid: string)
    ensures RowAllowed(table, WithId(table, RowOf(record, table), uuid)) <==> RecordAllowed(table, record)
  {
    hide NotNullColumns, Columns, Name, Get;
    forall c | c in NotNullColumns(table) ensures c in Columns(table) { NotNullIsColumn(table, c); }
    var row := WithId(table, RowOf(record, table), uuid);
    forall c | c in NotNullColumns(table)
      ensures c in row && (row[c] != JNull <==> Get(record, Name(c)) != JNull || (c == Id && CoalescesId(table)))
    {
    }
  }

  lemma StoredRowsAllowed(table: SeedTable, records: seq<Record>, server: Server, k: nat)
    ensures (forall row :: row in StoredRows(table, records, server, k) ==> RowAllowed(table, row))
            <==> RecordsAllowed(table, records)
  {
    hide RowAllowed, RecordAllowed, RowOf, WithId;
    var stored := StoredRows(table, records, server, k);
    forall i | 0 <= i < |records| ensures RowAllowed(table, stored[i]) <==> RecordAllowed(table, records[i]) {
      StoredRowAllowed(table, records[i], server.uuid(k + i));
    }
    assert forall i :: 0 <= i < |stored| ==> stored[i] in stored;
  }

  // ----- The identity check

  lemma PairsOfLoaded(tables: TableRows, t2: Tables, before: seq<Row>, server: Server, k: nat)
    requires Complete(tables) && t2.roasts == before + LoadedRows(tables, CloudRoasts, server, k)
    requires RowsAllowed(tables, CloudRoasts, server, k)
    requires forall row :: row in before ==> !In(At(row, IdempotencyKey), ValuesIn(tables[CloudRoasts], IdempotencyKey))
    ensures var roasts, pairs := tables[CloudRoasts], IdentityPairs(t2, ValuesIn(tables[CloudRoasts], IdempotencyKey));
            |pairs| == |roasts| && forall i :: 0 <= i < |roasts| ==>
              pairs[i] == (ValuesIn(roasts, IdempotencyKey)[i], ValuesIn(roasts, Id)[i])
  {
    hide At, StoredRows, RowAllowed, ValuesIn, Columns, Get, Name;
    var roasts, rows := tables[CloudRoasts], LoadedRows(tables, CloudRoasts, server, k);
    var keys := ValuesIn(roasts, IdempotencyKey);
    ValuesCount(roasts, IdempotencyKey);
    ValuesCount(roasts, Id);
    forall row | row in rows ensures In(At(row, IdempotencyKey), keys) {
      LoadedIdentity(tables, server, k, row);
      LoadedKeyPresent(tables, server, k, row);
    }
    MatchingRows(before, rows, keys);
    IdentityColumns();
    forall i | 0 <= i < |roasts|
      ensures At(rows[i], IdempotencyKey) == keys[i] && At(rows[i], Id) == ValuesIn(roasts, Id)[i]
    {
      StoredCellIs(CloudRoasts, roasts, server, k + 7, i, IdempotencyKey);
      StoredCellIs(CloudRoasts, roasts, server, k + 7, i, Id);
      ValueAt(roasts, IdempotencyKey, i);
      ValueAt(roasts, Id, i);
    }
    PairsOf(t2, before, rows, keys);
  }

  lemma ValuesCount(rows: seq<Record>, c: Column)
    ensures |ValuesIn(rows, c)| == |rows|
  {
  }

  lemma ValueAt(rows: seq<Record>, c: Column, i: nat)
    requires i < |rows|
    ensures |ValuesIn(rows, c)| == |rows| && ValuesIn(rows, c)[i] == Get(rows[i], Name(c))
  {
    hide Get, Name;
  }

  lemma LoadedKeyPresent(tables: TableRows, server: Server, k: nat, row: Row)
    requires Complete(tables) && RowsAllowed(tables, CloudRoasts, server, k)
             && row in LoadedRows(tables, CloudRoasts, server, k)
    ensures At(row, IdempotencyKey) != JNull
  {
    hide LoadedRows;
  }

  lemma MatchingRows(before: seq<Row>, rows: seq<Row>, keys: seq<Json>)
    requires forall row :: row in before ==> !In(At(row, IdempotencyKey), keys)
    requires forall row :: row in rows ==> In(At(row, IdempotencyKey), keys)
    ensures Filter((row: Row) => In(At(row, IdempotencyKey), keys), before + rows) == rows
  {
    hide At, In;
    FilterConcat((row: Row) => In(At(row, IdempotencyKey), keys), before, rows);
    NothingFiltered((row: Row) => In(At(row, IdempotencyKey), keys), before);
    FilterAll((row: Row) => In(At(row, IdempotencyKey), keys), rows);
    assert [] + rows == rows;
  }

  lemma PairsOf(t2: Tables, before: seq<Row>, rows: seq<Row>, keys: seq<Json>)
    requires t2.roasts == before + rows
    requires Filter((row: Row) => In(At(row, IdempotencyKey), keys), before + rows) == rows
    ensures |IdentityPairs(t2, keys)| == |rows|
    ensures forall i :: 0 <= i < |rows| ==> IdentityPairs(t2, keys)[i] == (At(rows[i], IdempotencyKey), At(rows[i], Id))
  {
    hide At, In;
  }

  lemma {:induction false} LastIdFinds(pairs: seq<(Json, Json)>, i: nat)
    requires i < |pairs| && forall a, b :: 0 <= a < b < |pairs| ==> pairs[a].0 != pairs[b].0
    ensures LastId(pairs, pairs[i].0) == pairs[i].1
  {
    if i < |pairs| - 1 { LastIdFinds(pairs[..|pairs| - 1], i); }
  }

  lemma LoadedIdsConfirmed(tables: TableRows, t2: Tables, before: seq<Row>, server: Server, k: nat)
    requires Complete(tables) && t2.roasts == before + LoadedRows(tables, CloudRoasts, server, k)
    requires RowsAllowed(tables, CloudRoasts, server, k) && IdentitiesDistinct(tables[CloudRoasts])
    requires forall row :: row in before ==> !In(At(row, IdempotencyKey), ValuesIn(tables[CloudRoasts], IdempotencyKey))
    ensures IdsConfirmed(IdentityPairs(t2, ValuesIn(tables[CloudRoasts], IdempotencyKey)), tables[CloudRoasts])
  {
    hide At, LoadedRows, RowsAllowed, IdentityPairs, ValuesIn, Get, Name, LastId;
    var roasts := tables[CloudRoasts];
    var pairs := IdentityPairs(t2, ValuesIn(roasts, IdempotencyKey));
    PairsOfLoaded(tables, t2, before, server, k);
    forall i | 0 <= i < |roasts|
      ensures LastId(pairs, Get(roasts[i], Name(IdempotencyKey))) == Get(roasts[i], Name(Id))
    {
      ValueAt(roasts, IdempotencyKey, i);
      ValueAt(roasts, Id, i);
      LastIdFinds(pairs, i);
    }
  }

  // ----- Merges and recomputations

  lemma MergeGoesThrough(record: Record, t: Tables, server: Server, k: nat)
    ensures Effect(MergeSummary(Params(record, ReferenceRoastSummaries)), t, server, k).Some?
            <==> RecordAllowed(ReferenceRoastSummaries, record)
  {
    hide BindUpTo, Params, Merge, RowOf, RecordAllowed, RowAllowed, Columns, WithId;
    BindsEveryColumn(record, ReferenceRoastSummaries);
    ParamsCount(record, ReferenceRoastSummaries);
    StoredRowAllowed(ReferenceRoastSummaries, record, server.uuid(k));
  }

  lemma MergesCons(rows: seq<Record>)
    requires rows != []
    ensures Merges(rows) == [MergeSummary(Params(rows[0], ReferenceRoastSummaries))] + Merges(rows[1..])
  {
    hide Params;
  }

  lemma {:induction false} MergesGoThrough(rows: seq<Record>, t: Tables, server: Server, k: nat)
    ensures Run(Merges(rows), t, server, k).Some? <==> RecordsAllowed(ReferenceRoastSummaries, rows)
    decreases |rows|
  {
    hide Effect, Params, Run, RecordAllowed;
    if rows == [] {
      assert Merges(rows) == [];
      RunNothing(t, server, k);
    } else {
      var s := MergeSummary(Params(rows[0], ReferenceRoastSummaries));
      MergesCons(rows);
      RunCons(s, Merges(rows[1..]), t, server, k);
      MergeGoesThrough(rows[0], t, server, k);
      if RecordAllowed(ReferenceRoastSummaries, rows[0]) {
        MergesGoThrough(rows[1..], Effect(s, t, server, k).value.0, server, k + 1);
        assert forall i :: 1 <= i < |rows| ==> rows[i] == rows[1..][i - 1];
      }
    }
  }

  ghost predicate HasRoom(locks: seq<Lock>, server: Server, n: nat) {
    server.readsAreGlobal && OneLock(locks) && 0 <= LockSeq(locks) && LockSeq(locks) + n <= MAX_WRITE_SEQ
  }

  lemma RoomShrinks(locks: seq<Lock>, server: Server, n: nat)
    requires n > 0 && HasRoom(locks, server, n)
    ensures HasRoom(BumpedBy(locks, 1), server, n - 1)
  {
    hide BumpedBy, LockSeq, LocksOf;
    LocksBumped(locks, 1);
    LockSeqBumped(locks, 1);
  }

  lemma RecomputeGoesThrough(record: Record, t: Tables, server: Server, k: nat)
    requires HasRoom(t.coordination, server, 1)
    ensures Effect(Recompute(GroupOrigin(record), GroupLevel(record)), t, server, k).Some?
  {
    hide Merge, RecomputedRow, Bumped, GroupOrigin, GroupLevel, LockSeq, LocksOf;
  }

  lemma {:induction false} RecomputesGoThrough(rows: seq<Record>, t: Tables, server: Server, k: nat)
    requires HasRoom(t.coordination, server, |rows|)
    ensures Run(Recomputes(rows), t, server, k).Some?
    decreases |rows|
  {
    hide Effect, Run, HasGroup, UniqueGroups, GroupOrigin, GroupLevel, LockSeq, LocksOf, BumpedBy;
    if rows == [] {
      assert Recomputes(rows) == [];
      RunNothing(t, server, k);
    } else {
      var s := Recompute(GroupOrigin(rows[0]), GroupLevel(rows[0]));
      RecomputesCons(rows);
      RunCons(s, Recomputes(rows[1..]), t, server, k);
      RecomputeGoesThrough(rows[0], t, server, k);
      RecomputeEffect(rows[0], t, server, k);
      RoomShrinks(t.coordination, server, |rows|);
      RecomputesGoThrough(rows[1..], Effect(s, t, server, k).value.0, server, k + 1);
    }
  }

  // ----- All child writes

  lemma RunBoth(a: seq<Statement>, b: seq<Statement>, t: Tables, server: Server, k: nat)
    requires Run(a, t, server, k).Some?
    ensures Run(a + b, t, server, k) == Run(b, Run(a, t, server, k).value, server, k + |a|)
  {
    hide Run;
    RunConcat(a, b, t, server, k);
  }

  lemma ChildWritesGoThrough(tables: TableRows, writeSeq: int, t2: Tables, server: Server, k: nat)
    requires Complete(tables) && IdsPresent(tables[CloudRoasts])
    requires forall table :: table in TABLE_ORDER ==> RecordsAllowed(table, tables[table])
    requires HasRoom(t2.coordination, server, |tables[ReferenceRoastSummaries]|)
    ensures Run(ChildWrites(tables, writeSeq), t2, server, k).Some?
  {
    hide Run, UniqueGroups, HasGroup, BumpedBy, HasRoom, StoredRows, RowAllowed, NewRevisions, ValuesIn, Inserts,
      RevisionInserts, Merges, Recomputes, GroupOrigin, GroupLevel, RecordsAllowed;
    var rows0, rows1, rows2 := tables[RoastTelemetry], tables[RoastArtifacts], tables[TastingReviews];
    var ids, groups := ValuesIn(tables[CloudRoasts], Id), tables[ReferenceRoastSummaries];
    var a, b, c := Inserts(RoastTelemetry, rows0), Inserts(RoastArtifacts, rows1), Inserts(TastingReviews, rows2);
    var d, e, f := RevisionInserts(ids, writeSeq), Merges(groups), Recomputes(groups);
    assert TABLE_ORDER[1] == RoastTelemetry && TABLE_ORDER[2] == RoastArtifacts && TABLE_ORDER[3] == TastingReviews
           && TABLE_ORDER[4] == ReferenceRoastSummaries;
    InsertsGoThrough(RoastTelemetry, rows0, t2, server, k);
    var m1 := Run(a, t2, server, k).value;
    InsertsGoThrough(RoastArtifacts, rows1, m1, server, k + |a|);
    RunBoth(a, b, t2, server, k);
    var m2 := Run(a + b, t2, server, k).value;
    InsertsGoThrough(TastingReviews, rows2, m2, server, k + |a + b|);
    RunBoth(a + b, c, t2, server, k);
    var m3 := Run(a + b + c, t2, server, k).value;
    RunRevisions(ids, writeSeq, m3, server, k + |a + b + c|);
    RunBoth(a + b + c, d, t2, server, k);
    var m4 := Run(a + b + c + d, t2, server, k).value;
    MergesGoThrough(groups, m4, server, k + |a + b + c + d|);
    RunBoth(a + b + c + d, e, t2, server, k);
    RunMerges(groups, m4, server, k + |a + b + c + d|);
    var m5 := Run(a + b + c + d + e, t2, server, k).value;
    RecomputesGoThrough(groups, m5, server, k + |a + b + c + d + e|);
    RunBoth(a + b + c + d + e, f, t2, server, k);
  }

  lemma InsertsGoThrough(table: SeedTable, rows: seq<Record>, t: Tables, server: Server, k: nat)
    requires RecordsAllowed(table, rows) && table != ReferenceRoastSummaries
    ensures Run(Inserts(table, rows), t, server, k).Some?
    ensures Run(Inserts(table, rows), t, server, k).value.coordination == t.coordination
  {
    hide Run, StoredRows, RowAllowed, Inserts, RecordsAllowed;
    StoredRowsAllowed(table, rows, server, k);
    RunInsertsSucceeds(table, rows, t, server, k);
    RunInserts(table, rows, t, server, k);
  }

  // ----- The theorem

  lemma LoadableSucceeds(tables: TableRows, t: Tables, server: Server, k: nat)
    requires Complete(tables) && IdsPresent(tables[CloudRoasts]) && IdentitiesDistinct(tables[CloudRoasts])
    requires Loadable(tables, t, server)
    ensures LoadResult(tables, t, server, k).Some?
  {
    hide Run, Fresh, BumpedBy, StoredRows, RowAllowed, ValuesIn, Inserts, ChildWrites, IdsConfirmed, IdentityPairs,
      RecordsAllowed, LockSeq, LocksOf, IdentitiesDistinct;
    var roasts, who := tables[CloudRoasts], IdentitiesOf(tables[CloudRoasts]);
    assert TABLE_ORDER[0] == CloudRoasts;
    EnteredShape(t, who);
    StoredRowsAllowed(CloudRoasts, roasts, server, k + 7);
    RunInsertsSucceeds(CloudRoasts, roasts, Entered(t), server, k + 7);
    RoastsInserted(tables, t, server, k);
    var t2 := Run(Inserts(CloudRoasts, roasts), Entered(t), server, k + 7).value;
    FreshKeys(t, who);
    LoadedIdsConfirmed(tables, t2, t.roasts, server, k);
    EnteredRoom(t, server, |tables[ReferenceRoastSummaries]|);
    ChildWritesGoThrough(tables, WriteSeqAfter(t), t2, server, k + 8 + |roasts|);
  }

  lemma FreshKeys(t: Tables, who: Identities)
    requires Fresh(t, who)
    ensures forall row :: row in t.roasts ==> !In(At(row, IdempotencyKey), who.keys)
  {
    hide At;
    forall row | row in t.roasts ensures !In(At(row, IdempotencyKey), who.keys) {
      assert !RoastMatches(row, who.ids, who.keys, who.slugs);
    }
  }

  lemma EnteredRoom(t: Tables, server: Server, n: nat)
    requires CanEnter(t, server) && LockSeq(t.coordination) + 1 + n <= MAX_WRITE_SEQ
    ensures HasRoom(BumpedBy(t.coordination, 1), server, n)
  {
    hide BumpedBy, LockSeq, LocksOf;
    LocksBumped(t.coordination, 1);
    LockSeqBumped(t.coordination, 1);
  }

  lemma SummariesMerged(tables: TableRows, t2: Tables, writeSeq: int, server: Server, k: nat)
    requires Complete(tables) && Run(ChildWrites(tables, writeSeq), t2, server, k).Some?
    ensures RecordsAllowed(ReferenceRoastSummaries, tables[ReferenceRoastSummaries])
  {
    hide Run, Inserts, RevisionInserts, Merges, Recomputes, RecordsAllowed, ValuesIn;
    var groups := tables[ReferenceRoastSummaries];
    var before := Inserts(RoastTelemetry, tables[RoastTelemetry]) + Inserts(RoastArtifacts, tables[RoastArtifacts])
                  + Inserts(TastingReviews, tables[TastingReviews])
                  + RevisionInserts(ValuesIn(tables[CloudRoasts], Id), writeSeq);
    var m5 := RunParts(before + Merges(groups), Recomputes(groups), t2, server, k);
    var m4 := RunParts(before, Merges(groups), t2, server, k);
    MergesGoThrough(groups, m4, server, k + |before|);
  }

  lemma LoadedRowsAllowed(tables: TableRows, table: SeedTable, server: Server, k: nat)
    requires Complete(tables) && RowsAllowed(tables, table, server, k) && table != ReferenceRoastSummaries
             && table in TABLE_ORDER
    ensures RecordsAllowed(table, tables[table])
  {
    hide StoredRows, RowAllowed, RecordsAllowed;
    var n := |tables[CloudRoasts]|;
    match table
    case CloudRoasts => StoredRowsAllowed(table, tables[table], server, k + 7);
    case RoastTelemetry => StoredRowsAllowed(table, tables[table], server, k + 8 + n);
    case RoastArtifacts => StoredRowsAllowed(table, tables[table], server, k + 8 + n + |tables[RoastTelemetry]|);
    case TastingReviews =>
      StoredRowsAllowed(table, tables[table], server, k + 8 + n + |tables[RoastTelemetry]| + |tables[RoastArtifacts]|);
  }

  lemma SucceededWasLoadable(tables: TableRows, t: Tables, server: Server, k: nat)
    requires Complete(tables) && IdsPresent(tables[CloudRoasts]) && LoadResult(tables, t, server, k).Some?
    ensures Loadable(tables, t, server)
  {
    hide Run, Fresh, UniqueGroups, GroupsLoaded, RowsAllowed, NewRevisions, BumpedBy, LockSeq, RecordsAllowed,
      IdentitiesOf, Inserts, ChildWrites, CanEnter, IdsPresent, IdsConfirmed;
    LoadResultShape(tables, t, server, k);
    var t2 := Run(Inserts(CloudRoasts, tables[CloudRoasts]), Entered(t), server, k + 7).value;
    SummariesMerged(tables, t2, WriteSeqAfter(t), server, k + 8 + |tables[CloudRoasts]|);
    forall table | table in TABLE_ORDER ensures RecordsAllowed(table, tables[table]) {
      if table != ReferenceRoastSummaries { LoadedRowsAllowed(tables, table, server, k); }
    }
  }

  /** A load with distinct identities goes through exactly when it was loadable. */
  lemma LoadSucceedsExactly(tables: TableRows, t: Tables, server: Server, k: nat)
    requires Complete(tables) && IdsPresent(tables[CloudRoasts]) && IdentitiesDistinct(tables[CloudRoasts])
    ensures LoadResult(tables, t, server, k).Some? <==> Loadable(tables, t, server)
  {
    hide LoadResult, Loadable, IdsPresent, IdentitiesDistinct;
    if Loadable(tables, t, server) { LoadableSucceeds(tables, t, server, k); }
    if LoadResult(tables, t, server, k).Some? { SucceededWasLoadable(tables, t, server, k); }
  }
}

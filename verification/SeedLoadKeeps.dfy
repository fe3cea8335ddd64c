/** The tables after a committed load in closed form, and the database invariant that every load keeps. */
module SeedLoadKeeps {
  import opened Wrappers
  import opened Sequences
  import opened JsonTrees
  import opened SeedTypes
  import opened SeedDispatch
  import opened SeedArtifact
  import opened SeedDatabase
  import opened SeedLoader
  import opened SeedLoadTheory
  import opened SeedSummaries

  // ----- Closed form

  lemma RunParts(a: seq<Statement>, b: seq<Statement>, t: Tables, server: Server, k: nat) returns (mid: Tables)
    requires Run(a + b, t, server, k).Some?
    ensures Run(a, t, server, k) == Some(mid)
    ensures Run(b, mid, server, k + |a|) == Run(a + b, t, server, k)
  {
    hide Run;
    RunConcat(a, b, t, server, k);
    mid := Run(a, t, server, k).value;
  }

  /** The rows that a load stores in a table other than the summaries; `k` is the statement that enters the plane. */
  function LoadedRows(tables: TableRows, table: SeedTable, server: Server, k: nat): seq<Row>
    requires Complete(tables)
  {
    var n := |tables[CloudRoasts]|;
    match table
    case CloudRoasts => StoredRows(table, tables[table], server, k + 7)
    case RoastTelemetry => StoredRows(table, tables[table], server, k + 8 + n)
    case RoastArtifacts => StoredRows(table, tables[table], server, k + 8 + n + |tables[RoastTelemetry]|)
    case TastingReviews =>
      StoredRows(table, tables[table], server, k + 8 + n + |tables[RoastTelemetry]| + |tables[RoastArtifacts]|)
    case ReferenceRoastSummaries => []
  }

  function LoadedRevisions(tables: TableRows, t: Tables): seq<Revision>
    requires Complete(tables)
  {
    NewRevisions(ValuesIn(tables[CloudRoasts], Id), WriteSeqAfter(t))
  }

  /** Everything a load adds, table by table; summaries and coordination separately. */
  function WithLoadedRows(tables: TableRows, t: Tables, server: Server, k: nat): Tables
    requires Complete(tables)
  {
    t.(roasts := t.roasts + LoadedRows(tables, CloudRoasts, server, k),
       telemetry := t.telemetry + LoadedRows(tables, RoastTelemetry, server, k),
       artifacts := t.artifacts + LoadedRows(tables, RoastArtifacts, server, k),
       reviews := t.reviews + LoadedRows(tables, TastingReviews, server, k),
       revisions := t.revisions + LoadedRevisions(tables, t))
  }

  predicate RowsAllowed(tables: TableRows, table: SeedTable, server: Server, k: nat)
    requires Complete(tables)
  {
    forall row :: row in LoadedRows(tables, table, server, k) ==> RowAllowed(table, row)
  }

  predicate IdsPresent(roasts: seq<Record>) {
    forall i :: 0 <= i < |ValuesIn(roasts, Id)| ==> ValuesIn(roasts, Id)[i] != JNull
  }

  ghost predicate GroupsLoaded(summaries: seq<Row>, rows: seq<Record>) {
    forall i :: 0 <= i < |rows| ==> HasGroup(summaries, GroupOrigin(rows[i]), GroupLevel(rows[i]))
  }

  lemma InsertCounts(table: SeedTable, rows: seq<Record>)
    ensures |Inserts(table, rows)| == |rows|
  {
  }

  lemma ChildWritesShape(tables: TableRows, t: Tables, t2: Tables, server: Server, k: nat)
    requires Complete(tables) && IdsPresent(tables[CloudRoasts])
    requires t2 == t.(coordination := BumpedBy(t.coordination, 1),
                      roasts := t.roasts + LoadedRows(tables, CloudRoasts, server, k))
    requires Run(ChildWrites(tables, WriteSeqAfter(t)), t2, server, k + 8 + |tables[CloudRoasts]|).Some?
    ensures var t' := Run(ChildWrites(tables, WriteSeqAfter(t)), t2, server, k + 8 + |tables[CloudRoasts]|).value;
            var groups := tables[ReferenceRoastSummaries];
            && t' == WithLoadedRows(tables, t, server, k).(
                       summaries := t'.summaries,
                       coordination := BumpedBy(t.coordination, 1 + |groups|))
            && (UniqueGroups(t.summaries) ==> UniqueGroups(t'.summaries))
            && GroupsLoaded(t'.summaries, groups)
            && SummariesLoaded(t.summaries, t', server, groups)
            && RowsAllowed(tables, RoastTelemetry, server, k) && RowsAllowed(tables, RoastArtifacts, server, k)
            && RowsAllowed(tables, TastingReviews, server, k)
            && (groups != [] ==>
                  && OneLock(BumpedBy(t.coordination, 1))
                  && 0 <= LockSeq(BumpedBy(t.coordination, 1)) + |groups| <= MAX_WRITE_SEQ)
  {
    hide Run, UniqueGroups, HasGroup, BumpedBy, LockSeq, OneLock, StoredRows, RowAllowed, NewRevisions, ValuesIn,
      Inserts, RevisionInserts, Merges, Recomputes, GroupOrigin, GroupLevel, WriteSeqAfter, SummariesLoaded;
    var rows0, rows1, rows2 := tables[RoastTelemetry], tables[RoastArtifacts], tables[TastingReviews];
    var ids, seqNo, groups := ValuesIn(tables[CloudRoasts], Id), WriteSeqAfter(t), tables[ReferenceRoastSummaries];
    var a, b, c := Inserts(RoastTelemetry, rows0), Inserts(RoastArtifacts, rows1), Inserts(TastingReviews, rows2);
    var d, e, f := RevisionInserts(ids, seqNo), Merges(groups), Recomputes(groups);
    var start := k + 8 + |tables[CloudRoasts]|;
    InsertCounts(RoastTelemetry, rows0);
    InsertCounts(RoastArtifacts, rows1);
    InsertCounts(TastingReviews, rows2);
    var m5 := RunParts(a + b + c + d + e, f, t2, server, start);
    var m4 := RunParts(a + b + c + d, e, t2, server, start);
    var m3 := RunParts(a + b + c, d, t2, server, start);
    var m2 := RunParts(a + b, c, t2, server, start);
    var m1 := RunParts(a, b, t2, server, start);
    RunInserts(RoastTelemetry, rows0, t2, server, start);
    RunInserts(RoastArtifacts, rows1, m1, server, start + |a|);
    RunInserts(TastingReviews, rows2, m2, server, start + |a + b|);
    RunRevisions(ids, seqNo, m3, server, start + |a + b + c|);
    RunMerges(groups, m4, server, start + |a + b + c + d|);
    RunRecomputes(groups, m5, server, start + |a + b + c + d + e|);
    var t' := Run(f, m5, server, start + |a + b + c + d + e|).value;
    BumpedTwice(t.coordination, 1, |groups|);
    GroupsSurvive(m5, t', groups);
    SummaryStatements(groups, m4, m5, server, start + |a + b + c + d|, start + |a + b + c + d + e|);
  }

  lemma GroupsSurvive(before: Tables, after: Tables, groups: seq<Record>)
    requires OnlySummaries(before, after)
    ensures GroupsLoaded(before.summaries, groups) ==> GroupsLoaded(after.summaries, groups)
  {
    hide HasGroup, UniqueGroups, GroupOrigin, GroupLevel;
  }

  /** What a load that goes through leaves in the tables, and what it found there. */
  ghost predicate LoadShape(tables: TableRows, t: Tables, t': Tables, server: Server, k: nat)
    requires Complete(tables)
  {
    && CanEnter(t, server) && WriteSeqAfter(t) >= 0
    && Fresh(t, IdentitiesOf(tables[CloudRoasts]))
    && t' == WithLoadedRows(tables, t, server, k).(
               summaries := t'.summaries,
               coordination := BumpedBy(t.coordination, 1 + |tables[ReferenceRoastSummaries]|))
    && (UniqueGroups(t.summaries) ==> UniqueGroups(t'.summaries))
    && GroupsLoaded(t'.summaries, tables[ReferenceRoastSummaries])
    && SummariesLoaded(t.summaries, t', server, tables[ReferenceRoastSummaries])
    && (forall table :: RowsAllowed(tables, table, server, k))
    && LockSeq(t.coordination) + 1 + |tables[ReferenceRoastSummaries]| <= MAX_WRITE_SEQ
  }

  lemma EnteredShape(t: Tables, who: Identities)
    ensures Entered(t) == t.(coordination := BumpedBy(t.coordination, 1))
    ensures Fresh(Entered(t), who) <==> Fresh(t, who)
  {
    hide RoastMatches, TombstoneMatches, In, At;
    BumpedIs(t.coordination);
  }

  lemma RoastsInserted(tables: TableRows, t: Tables, server: Server, k: nat)
    requires Complete(tables)
    requires Run(Inserts(CloudRoasts, tables[CloudRoasts]), Entered(t), server, k + 7).Some?
    ensures Run(Inserts(CloudRoasts, tables[CloudRoasts]), Entered(t), server, k + 7).value
            == t.(coordination := BumpedBy(t.coordination, 1),
                  roasts := t.roasts + LoadedRows(tables, CloudRoasts, server, k))
    ensures RowsAllowed(tables, CloudRoasts, server, k)
  {
    hide Run, RowAllowed, StoredRows, Inserts;
    EnteredShape(t, Identities([], [], []));
    RunInserts(CloudRoasts, tables[CloudRoasts], Entered(t), server, k + 7);
  }

  /**
   * A load that goes through adds exactly the artifact's rows and three revisions a roast, leaves the summary rows of
   * its groups recomputed over the loaded tables, and touches nothing else.
   */
  lemma LoadResultShape(tables: TableRows, t: Tables, server: Server, k: nat)
    requires Complete(tables) && IdsPresent(tables[CloudRoasts])
    requires LoadResult(tables, t, server, k).Some?
    ensures LoadShape(tables, t, LoadResult(tables, t, server, k).value, server, k)
  {
    hide Run, Fresh, UniqueGroups, GroupsLoaded, CanEnter, LockSeq, OneLock, BumpedBy, Inserts, ChildWrites,
      IdsConfirmed, IdentitiesOf, StoredRows, RowAllowed, IdentityPairs, IdsPresent, NewRevisions, ValuesIn,
      SummariesLoaded;
    var who := IdentitiesOf(tables[CloudRoasts]);
    EnteredShape(t, who);
    RoastsInserted(tables, t, server, k);
    var t2 := Run(Inserts(CloudRoasts, tables[CloudRoasts]), Entered(t), server, k + 7).value;
    ChildWritesShape(tables, t, t2, server, k);
    EnterRange(t, server);
    BumpedRange(t.coordination);
    NothingStored(tables, server, k);
  }

  lemma NothingStored(tables: TableRows, server: Server, k: nat)
    requires Complete(tables)
    ensures RowsAllowed(tables, ReferenceRoastSummaries, server, k)
  {
  }

  lemma BumpedRange(locks: seq<Lock>)
    requires OneLock(locks)
    ensures LockSeq(BumpedBy(locks, 1)) == LockSeq(locks) + 1
  {
    hide LockSeq, BumpedBy, LocksOf;
    LockSeqBumped(locks, 1);
  }

  /** The returned counts are exactly how much the tables grew, and revisions grew by three a roast. */
  lemma LoadGrowth(tables: TableRows, t: Tables, server: Server, k: nat)
    requires Complete(tables) && IdsPresent(tables[CloudRoasts]) && LoadResult(tables, t, server, k).Some?
    ensures var t' := LoadResult(tables, t, server, k).value;
            && |t'.roasts| == |t.roasts| + Counts(tables)[CloudRoasts]
            && |t'.telemetry| == |t.telemetry| + Counts(tables)[RoastTelemetry]
            && |t'.artifacts| == |t.artifacts| + Counts(tables)[RoastArtifacts]
            && |t'.reviews| == |t.reviews| + Counts(tables)[TastingReviews]
            && |t'.revisions| == |t.revisions| + 3 * Counts(tables)[CloudRoasts]
            && t'.tombstones == t.tombstones
  {
    hide LoadResult, CanEnter, Fresh, UniqueGroups, GroupsLoaded, SummariesLoaded, RowsAllowed, IdsPresent,
      NewRevisions, BumpedBy, LockSeq;
    LoadResultShape(tables, t, server, k);
    NewRevisionsCount(ValuesIn(tables[CloudRoasts], Id), WriteSeqAfter(t));
  }
}

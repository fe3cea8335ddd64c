/** What a committed load did to the tables, and the database invariant that it keeps. */
module SeedLoadTheory {
  import opened Wrappers
  import opened Sequences
  import opened JsonTrees
  import opened SeedTypes
  import opened SeedDispatch
  import opened SeedArtifact
  import opened SeedDatabase
  import opened SeedLoader

  // ----- One section of the script at a time

  function AppendRows(t: Tables, table: SeedTable, rows: seq<Row>): Tables {
    match table
    case CloudRoasts => t.(roasts := t.roasts + rows)
    case RoastTelemetry => t.(telemetry := t.telemetry + rows)
    case RoastArtifacts => t.(artifacts := t.artifacts + rows)
    case TastingReviews => t.(reviews := t.reviews + rows)
    case ReferenceRoastSummaries => t.(summaries := t.summaries + rows)
  }

  /** The rows that inserting records stores, the `i`th by the `(k + i)`th statement. */
  function StoredRows(table: SeedTable, rows: seq<Record>, server: Server, k: nat): (r: seq<Row>)
    ensures |r| == |rows|
  {
    seq(|rows|, i requires 0 <= i < |rows| => WithId(table, RowOf(rows[i], table), server.uuid(k + i)))
  }

  lemma InsertStores(record: Record, table: SeedTable, t: Tables, server: Server, k: nat)
    ensures var row := WithId(table, RowOf(record, table), server.uuid(k));
            Effect(Insert(table, Params(record, table)), t, server, k)
            == if RowAllowed(table, row) then Some((AppendRow(t, table, row), NoRow)) else None
  {
    hide RowOf, BindUpTo, RowAllowed, WithId, Columns, Params;
    BindsEveryColumn(record, table);
    ParamsCount(record, table);
  }

  lemma ParamsCount(record: Record, table: SeedTable)
    ensures |Params(record, table)| == |Columns(table)|
  {
  }

  lemma RunCons(s: Statement, rest: seq<Statement>, t: Tables, server: Server, k: nat)
    ensures Run([s] + rest, t, server, k)
            == match Effect(s, t, server, k) case None => None case Some((t', reply)) => Run(rest, t', server, k + 1)
  {
    hide Effect;
    assert ([s] + rest)[1..] == rest;
  }

  lemma RunNothing(t: Tables, server: Server, k: nat)
    ensures Run([], t, server, k) == Some(t)
  {
  }

  lemma AppendCons(t: Tables, table: SeedTable, row: Row, rest: seq<Row>)
    ensures AppendRows(AppendRow(t, table, row), table, rest) == AppendRows(t, table, [row] + rest)
  {
    assert ChildRows(t, table) + [row] + rest == ChildRows(t, table) + ([row] + rest);
  }

  lemma AppendNothing(t: Tables, table: SeedTable)
    ensures AppendRows(t, table, []) == t
  {
    assert ChildRows(t, table) + [] == ChildRows(t, table);
  }

  lemma SplitInserts(table: SeedTable, rows: seq<Record>)
    requires rows != []
    ensures Inserts(table, rows) == [Insert(table, Params(rows[0], table))] + Inserts(table, rows[1..])
  {
    hide Params;
  }

  lemma SplitStored(table: SeedTable, rows: seq<Record>, server: Server, k: nat)
    requires rows != []
    ensures StoredRows(table, rows, server, k)
            == [WithId(table, RowOf(rows[0], table), server.uuid(k))] + StoredRows(table, rows[1..], server, k + 1)
  {
    hide RowOf, WithId;
    var all, rest := StoredRows(table, rows, server, k), StoredRows(table, rows[1..], server, k + 1);
    forall i | 1 <= i < |rows| ensures all[i] == rest[i - 1] {
      assert rows[1..][i - 1] == rows[i];
    }
  }

  lemma {:induction false} RunInserts(table: SeedTable, rows: seq<Record>, t: Tables, server: Server, k: nat)
    requires Run(Inserts(table, rows), t, server, k).Some?
    ensures Run(Inserts(table, rows), t, server, k).value == AppendRows(t, table, StoredRows(table, rows, server, k))
    ensures forall row :: row in StoredRows(table, rows, server, k) ==> RowAllowed(table, row)
    decreases |rows|
  {
    hide Effect, RowOf, RowAllowed, WithId, Params, Run, AppendRow, AppendRows;
    if rows == [] {
      assert StoredRows(table, rows, server, k) == [] && Inserts(table, rows) == [];
      RunNothing(t, server, k);
      AppendNothing(t, table);
    } else {
      var row := WithId(table, RowOf(rows[0], table), server.uuid(k));
      InsertStores(rows[0], table, t, server, k);
      SplitInserts(table, rows);
      SplitStored(table, rows, server, k);
      RunCons(Insert(table, Params(rows[0], table)), Inserts(table, rows[1..]), t, server, k);
      RunInserts(table, rows[1..], AppendRow(t, table, row), server, k + 1);
      AppendCons(t, table, row, StoredRows(table, rows[1..], server, k + 1));
    }
  }

  /** Conversely, inserting allowed rows never fails. */
  lemma {:induction false} RunInsertsSucceeds(table: SeedTable, rows: seq<Record>, t: Tables, server: Server, k: nat)
    requires forall row :: row in StoredRows(table, rows, server, k) ==> RowAllowed(table, row)
    ensures Run(Inserts(table, rows), t, server, k).Some?
    decreases |rows|
  {
    hide Effect, RowOf, RowAllowed, WithId, Params, Run, AppendRow;
    if rows == [] {
      assert Inserts(table, rows) == [];
      RunNothing(t, server, k);
    } else {
      var row := WithId(table, RowOf(rows[0], table), server.uuid(k));
      InsertStores(rows[0], table, t, server, k);
      SplitInserts(table, rows);
      SplitStored(table, rows, server, k);
      RunCons(Insert(table, Params(rows[0], table)), Inserts(table, rows[1..]), t, server, k);
      assert row in StoredRows(table, rows, server, k);
      RunInsertsSucceeds(table, rows[1..], AppendRow(t, table, row), server, k + 1);
    }
  }

  function RevisionsOf(id: Json, writeSeq: int): seq<Revision> {
    Map((field: string) => Revision(id, field, 0, writeSeq), REVISION_FIELDS)
  }

  function NewRevisions(ids: seq<Json>, writeSeq: int): seq<Revision> {
    if ids == [] then [] else NewRevisions(ids[..|ids| - 1], writeSeq) + RevisionsOf(ids[|ids| - 1], writeSeq)
  }

  lemma {:induction false} NewRevisionsCount(ids: seq<Json>, writeSeq: int)
    ensures |NewRevisions(ids, writeSeq)| == 3 * |ids|
    ensures |RevisionInserts(ids, writeSeq)| == 3 * |ids|
  {
    if ids != [] { NewRevisionsCount(ids[..|ids| - 1], writeSeq); }
  }

  lemma RunRevision(id: Json, field: string, writeSeq: int, rest: seq<Statement>, t: Tables, server: Server, k: nat)
    requires id != JNull
    ensures Run([InsertRevision(id, field, writeSeq)] + rest, t, server, k)
            == Run(rest, t.(revisions := t.revisions + [Revision(id, field, 0, writeSeq)]), server, k + 1)
  {
    RunCons(InsertRevision(id, field, writeSeq), rest, t, server, k);
  }

  lemma RunThreeRevisions(id: Json, writeSeq: int, t: Tables, server: Server, k: nat)
    requires id != JNull
    ensures Run(RevisionsFor(id, writeSeq), t, server, k)
            == Some(t.(revisions := t.revisions + RevisionsOf(id, writeSeq)))
  {
    hide Run, Effect;
    var s, r := RevisionsFor(id, writeSeq), RevisionsOf(id, writeSeq);
    var t1 := t.(revisions := t.revisions + [r[0]]);
    var t2 := t1.(revisions := t1.revisions + [r[1]]);
    var t3 := t2.(revisions := t2.revisions + [r[2]]);
    assert s == [s[0]] + ([s[1]] + ([s[2]] + []));
    RunRevision(id, REVISION_FIELDS[0], writeSeq, [s[1]] + ([s[2]] + []), t, server, k);
    RunRevision(id, REVISION_FIELDS[1], writeSeq, [s[2]] + [], t1, server, k + 1);
    RunRevision(id, REVISION_FIELDS[2], writeSeq, [], t2, server, k + 2);
    RunNothing(t3, server, k + 3);
    assert t3.revisions == t.revisions + r;
  }

  lemma {:induction false} RunRevisions(ids: seq<Json>, writeSeq: int, t: Tables, server: Server, k: nat)
    requires forall i :: 0 <= i < |ids| ==> ids[i] != JNull
    ensures Run(RevisionInserts(ids, writeSeq), t, server, k)
            == Some(t.(revisions := t.revisions + NewRevisions(ids, writeSeq)))
  {
    hide Effect, RevisionsFor, RevisionsOf;
    if ids == [] {
      assert t.revisions + [] == t.revisions;
    } else {
      var init, last := ids[..|ids| - 1], ids[|ids| - 1];
      RunRevisions(init, writeSeq, t, server, k);
      RunConcat(RevisionInserts(init, writeSeq), RevisionsFor(last, writeSeq), t, server, k);
      NewRevisionsCount(init, writeSeq);
      RunThreeRevisions(last, writeSeq, t.(revisions := t.revisions + NewRevisions(init, writeSeq)), server,
                        k + 3 * |init|);
      assert t.revisions + NewRevisions(init, writeSeq) + RevisionsOf(last, writeSeq)
             == t.revisions + NewRevisions(ids, writeSeq);
    }
  }

  // ----- Summaries

  ghost predicate HasGroup(summaries: seq<Row>, origin: Json, level: Json) {
    exists i :: 0 <= i < |summaries| && SameGroup(summaries[i], origin, level)
  }

  /** No two summary rows share a group. */
  predicate UniqueGroups(summaries: seq<Row>) {
    forall i, j :: 0 <= i < j < |summaries| ==>
      !SameGroup(summaries[j], At(summaries[i], BeanOrigin), At(summaries[i], RoastLevel))
  }

  lemma MergedRowKeepsGroup(row: Row, source: Row)
    ensures At(MergedRow(row, source), BeanOrigin) == At(row, BeanOrigin)
    ensures At(MergedRow(row, source), RoastLevel) == At(row, RoastLevel)
    ensures At(MergedRow(row, source), Id) == At(row, Id)
  {
  }

  /** The columns that a merge updates in a matched row. */
  predicate Merged(c: Column) {
    c in Columns(ReferenceRoastSummaries) && c != Id && c != BeanOrigin && c != RoastLevel
  }

  /** The row holds the source's value in every column that a merge updates. */
  ghost predicate HoldsSource(row: Row, source: Row) {
    forall c :: Merged(c) ==> At(row, c) == At(source, c)
  }

  lemma MergedRowHolds(row: Row, source: Row)
    ensures HoldsSource(MergedRow(row, source), source)
  {
  }

  /** A merge leaves every row of its group with the source's values, and its id as it was. */
  lemma MergeUpdatesGroup(summaries: seq<Row>, source: Row)
    ensures var merged := Merge(summaries, source);
            var origin, level := At(source, BeanOrigin), At(source, RoastLevel);
            && |summaries| <= |merged|
            && (forall i :: 0 <= i < |merged| && SameGroup(merged[i], origin, level) ==> HoldsSource(merged[i], source))
            && (forall i :: 0 <= i < |summaries| ==> At(merged[i], Id) == At(summaries[i], Id))
  {
    hide MergedRow, HoldsSource, At;
    var origin, level := At(source, BeanOrigin), At(source, RoastLevel);
    forall i | 0 <= i < |summaries|
      ensures HoldsSource(MergedRow(summaries[i], source), source)
      ensures At(MergedRow(summaries[i], source), Id) == At(summaries[i], Id)
    {
      MergedRowHolds(summaries[i], source);
      MergedRowKeepsGroup(summaries[i], source);
    }
    HoldsItself(source);
  }

  lemma HoldsItself(source: Row)
    ensures HoldsSource(source, source)
  {
  }

  /** A merge writes only the row of its own group, keeps group keys unique and loses no group. */
  lemma MergeTouchesOneGroup(summaries: seq<Row>, source: Row)
    ensures var merged := Merge(summaries, source);
            var origin, level := At(source, BeanOrigin), At(source, RoastLevel);
            && |summaries| <= |merged| <= |summaries| + 1
            && (forall i :: 0 <= i < |summaries| ==>
                  && At(merged[i], BeanOrigin) == At(summaries[i], BeanOrigin)
                  && At(merged[i], RoastLevel) == At(summaries[i], RoastLevel)
                  && (!SameGroup(summaries[i], origin, level) ==> merged[i] == summaries[i]))
            && (|merged| > |summaries| ==> merged[|summaries|] == source && !HasGroup(summaries, origin, level))
  {
    hide MergedRow;
    var merged := Merge(summaries, source);
    forall i | 0 <= i < |summaries|
      ensures At(merged[i], BeanOrigin) == At(summaries[i], BeanOrigin)
              && At(merged[i], RoastLevel) == At(summaries[i], RoastLevel)
    {
      MergedRowKeepsGroup(summaries[i], source);
    }
  }

  lemma MergeKeepsUnique(summaries: seq<Row>, source: Row)
    requires UniqueGroups(summaries)
    ensures UniqueGroups(Merge(summaries, source))
  {
    hide Merge, At;
    MergeTouchesOneGroup(summaries, source);
    var merged := Merge(summaries, source);
    forall i, j | 0 <= i < j < |merged|
      ensures !SameGroup(merged[j], At(merged[i], BeanOrigin), At(merged[i], RoastLevel))
    {
      if j == |summaries| {
        assert !SameGroup(summaries[i], At(source, BeanOrigin), At(source, RoastLevel));
      }
    }
  }

  lemma MergeKeepsGroups(summaries: seq<Row>, source: Row, origin: Json, level: Json)
    requires HasGroup(summaries, origin, level)
    ensures HasGroup(Merge(summaries, source), origin, level)
  {
    hide Merge, At;
    MergeTouchesOneGroup(summaries, source);
    var i :| 0 <= i < |summaries| && SameGroup(summaries[i], origin, level);
    assert SameGroup(Merge(summaries, source)[i], origin, level);
  }

  lemma MergeAddsGroup(summaries: seq<Row>, source: Row)
    requires At(source, BeanOrigin) != JNull && At(source, RoastLevel) != JNull
    ensures HasGroup(Merge(summaries, source), At(source, BeanOrigin), At(source, RoastLevel))
  {
    hide MergedRow;
    var origin, level := At(source, BeanOrigin), At(source, RoastLevel);
    var merged := Merge(summaries, source);
    if i :| 0 <= i < |summaries| && SameGroup(summaries[i], origin, level) {
      MergedRowKeepsGroup(summaries[i], source);
      assert SameGroup(merged[i], origin, level);
    } else {
      assert SameGroup(merged[|summaries|], origin, level);
    }
  }

  /** What merging and recomputing may do to the tables. */
  ghost predicate OnlySummaries(t: Tables, t': Tables) {
    && t' == t.(summaries := t'.summaries, coordination := t'.coordination)
    && (UniqueGroups(t.summaries) ==> UniqueGroups(t'.summaries))
    && (forall origin, level :: HasGroup(t.summaries, origin, level) ==> HasGroup(t'.summaries, origin, level))
  }

  lemma OnlySummariesChain(t: Tables, t': Tables, t'': Tables)
    requires OnlySummaries(t, t') && OnlySummaries(t', t'')
    ensures OnlySummaries(t, t'')
  {
    hide UniqueGroups, HasGroup;
  }

  lemma MergeOnly(t: Tables, source: Row, locks: seq<Lock>)
    ensures OnlySummaries(t, t.(summaries := Merge(t.summaries, source), coordination := locks))
  {
    hide Merge, UniqueGroups, HasGroup;
    if UniqueGroups(t.summaries) { MergeKeepsUnique(t.summaries, source); }
    forall origin, level | HasGroup(t.summaries, origin, level)
      ensures HasGroup(Merge(t.summaries, source), origin, level)
    {
      MergeKeepsGroups(t.summaries, source, origin, level);
    }
  }

  function GroupOrigin(record: Record): Json {
    Get(record, Name(BeanOrigin))
  }

  function GroupLevel(record: Record): Json {
    Get(record, Name(RoastLevel))
  }

  lemma MergeEffect(record: Record, t: Tables, server: Server, k: nat)
    requires Effect(MergeSummary(Params(record, ReferenceRoastSummaries)), t, server, k).Some?
    ensures var t' := Effect(MergeSummary(Params(record, ReferenceRoastSummaries)), t, server, k).value.0;
            && OnlySummaries(t, t') && t'.coordination == t.coordination
            && HasGroup(t'.summaries, GroupOrigin(record), GroupLevel(record))
  {
    hide BindUpTo, Params, Merge, OnlySummaries, HasGroup, RowOf;
    BindsEveryColumn(record, ReferenceRoastSummaries);
    ParamsCount(record, ReferenceRoastSummaries);
    var source := WithId(ReferenceRoastSummaries, RowOf(record, ReferenceRoastSummaries), server.uuid(k));
    MergeOnly(t, source, t.coordination);
    SummarySourceGroup(record, server.uuid(k));
    MergeAddsGroup(t.summaries, source);
  }

  lemma SummarySourceGroup(record: Record, uuid: string)
    ensures var source := WithId(ReferenceRoastSummaries, RowOf(record, ReferenceRoastSummaries), uuid);
            && At(source, BeanOrigin) == GroupOrigin(record) && At(source, RoastLevel) == GroupLevel(record)
  {
    hide Name;
  }

  lemma {:induction false} RunMerges(rows: seq<Record>, t: Tables, server: Server, k: nat)
    requires Run(Merges(rows), t, server, k).Some?
    ensures var t' := Run(Merges(rows), t, server, k).value;
            && OnlySummaries(t, t') && t'.coordination == t.coordination
            && forall i :: 0 <= i < |rows| ==> HasGroup(t'.summaries, GroupOrigin(rows[i]), GroupLevel(rows[i]))
    decreases |rows|
  {
    hide Effect, Params, Run, HasGroup, UniqueGroups, GroupOrigin, GroupLevel;
    if rows == [] {
      assert Merges(rows) == [];
      RunNothing(t, server, k);
    } else {
      var s := MergeSummary(Params(rows[0], ReferenceRoastSummaries));
      assert Merges(rows) == [s] + Merges(rows[1..]);
      RunCons(s, Merges(rows[1..]), t, server, k);
      MergeEffect(rows[0], t, server, k);
      var t1 := Effect(s, t, server, k).value.0;
      RunMerges(rows[1..], t1, server, k + 1);
      OnlySummariesChain(t, t1, Run(Merges(rows), t, server, k).value);
      assert forall i :: 1 <= i < |rows| ==> rows[i] == rows[1..][i - 1];
    }
  }

  // ----- Coordination

  function BumpedBy(locks: seq<Lock>, n: nat): seq<Lock> {
    Map((l: Lock) => if IsLock(l) then Lock(l.lockName, l.writeSeq + n) else l, locks)
  }

  predicate OneLock(locks: seq<Lock>) {
    |LocksOf(locks)| == 1
  }

  lemma BumpedIs(locks: seq<Lock>)
    ensures Bumped(locks) == BumpedBy(locks, 1)
  {
  }

  lemma BumpedTwice(locks: seq<Lock>, m: nat, n: nat)
    ensures BumpedBy(BumpedBy(locks, m), n) == BumpedBy(locks, m + n)
  {
  }

  lemma BumpedInit(locks: seq<Lock>, n: nat)
    requires locks != []
    ensures BumpedBy(locks, n)[..|locks| - 1] == BumpedBy(locks[..|locks| - 1], n)
    ensures IsLock(BumpedBy(locks, n)[|locks| - 1]) == IsLock(locks[|locks| - 1])
    ensures BumpedBy(locks, n)[|locks| - 1].writeSeq == locks[|locks| - 1].writeSeq
            + if IsLock(locks[|locks| - 1]) then n else 0
  {
  }

  lemma LocksStep(locks: seq<Lock>)
    requires locks != []
    ensures |LocksOf(locks)| == |LocksOf(locks[..|locks| - 1])| + if IsLock(locks[|locks| - 1]) then 1 else 0
  {
  }

  lemma {:induction false} LocksBumped(locks: seq<Lock>, n: nat)
    ensures |LocksOf(BumpedBy(locks, n))| == |LocksOf(locks)|
    decreases |locks|
  {
    hide LocksOf, IsLock, BumpedBy;
    if locks != [] {
      var bumped := BumpedBy(locks, n);
      BumpedInit(locks, n);
      BumpedLength(locks, n);
      LocksBumped(locks[..|locks| - 1], n);
      LocksStep(locks);
      LocksStep(bumped);
    } else {
      BumpedLength(locks, n);
      assert BumpedBy(locks, n) == locks;
    }
  }

  lemma BumpedLength(locks: seq<Lock>, n: nat)
    ensures |BumpedBy(locks, n)| == |locks|
  {
  }

  lemma {:induction false} LockSeqBumped(locks: seq<Lock>, n: nat)
    requires |LocksOf(locks)| > 0
    ensures LockSeq(BumpedBy(locks, n)) == LockSeq(locks) + n
    decreases |locks|
  {
    hide LocksOf, BumpedBy;
    BumpedLength(locks, n);
    if locks == [] {
      NoLocks();
    } else {
      BumpedInit(locks, n);
      LocksStep(locks);
      if !IsLock(locks[|locks| - 1]) { LockSeqBumped(locks[..|locks| - 1], n); }
    }
  }

  lemma NoLocks()
    ensures LocksOf([]) == []
  {
  }

  lemma RecomputeEffect(record: Record, t: Tables, server: Server, k: nat)
    requires Effect(Recompute(GroupOrigin(record), GroupLevel(record)), t, server, k).Some?
    ensures var t' := Effect(Recompute(GroupOrigin(record), GroupLevel(record)), t, server, k).value.0;
            && OnlySummaries(t, t') && t'.coordination == BumpedBy(t.coordination, 1) && CanEnter(t, server)
  {
    hide Merge, OnlySummaries, RecomputedRow, Bumped, GroupOrigin, GroupLevel, CanEnter;
    BumpedIs(t.coordination);
    var entered := t.(coordination := Bumped(t.coordination));
    var source := RecomputedRow(entered, server, GroupOrigin(record), GroupLevel(record), k);
    MergeOnly(t, source, Bumped(t.coordination));
    OnlyCoordination(t, Bumped(t.coordination));
  }

  lemma OnlyCoordination(t: Tables, locks: seq<Lock>)
    ensures OnlySummaries(t, t.(coordination := locks))
  {
  }

  lemma {:induction false} RunRecomputes(rows: seq<Record>, t: Tables, server: Server, k: nat)
    requires Run(Recomputes(rows), t, server, k).Some?
    ensures var t' := Run(Recomputes(rows), t, server, k).value;
            && OnlySummaries(t, t') && t'.coordination == BumpedBy(t.coordination, |rows|)
            && (rows != [] ==> OneLock(t.coordination) && 0 <= LockSeq(t.coordination) + |rows| <= MAX_WRITE_SEQ)
    decreases |rows|
  {
    hide Effect, Run, HasGroup, UniqueGroups, GroupOrigin, GroupLevel, LockSeq, LocksOf;
    if rows == [] {
      assert Recomputes(rows) == [];
      RunNothing(t, server, k);
      assert BumpedBy(t.coordination, 0) == t.coordination;
    } else {
      var s := Recompute(GroupOrigin(rows[0]), GroupLevel(rows[0]));
      RecomputesCons(rows);
      RunCons(s, Recomputes(rows[1..]), t, server, k);
      RecomputeEffect(rows[0], t, server, k);
      var t1 := Effect(s, t, server, k).value.0;
      RunRecomputes(rows[1..], t1, server, k + 1);
      OnlySummariesChain(t, t1, Run(Recomputes(rows), t, server, k).value);
      BumpedTwice(t.coordination, 1, |rows| - 1);
      EnterRange(t, server);
      LocksBumped(t.coordination, 1);
      LockSeqBumped(t.coordination, 1);
    }
  }

  lemma RecomputesCons(rows: seq<Record>)
    requires rows != []
    ensures Recomputes(rows) == [Recompute(GroupOrigin(rows[0]), GroupLevel(rows[0]))] + Recomputes(rows[1..])
  {
  }

  lemma EnterRange(t: Tables, server: Server)
    requires CanEnter(t, server)
    ensures OneLock(t.coordination) && 0 <= LockSeq(t.coordination) + 1 <= MAX_WRITE_SEQ
  {
  }
}

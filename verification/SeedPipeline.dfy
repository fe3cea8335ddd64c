/** From validated output to the loader: what is dispatched, when it is accepted, and what it then stores. */
module SeedPipeline {
  import opened Wrappers
  import opened Sequences
  import opened IsoTime
  import opened JsonTrees
  import opened SeededRandom
  import opened SeedTypes
  import opened SeedRules
  import opened SeedRelations
  import opened SeedDispatch
  import opened SeedArtifact
  import opened SeedDatabase
  import opened SeedLoader
  import opened SeedLoadKeeps
  import opened SeedLoadable

  // ----- The artifact's shape

  lemma TwoFields(k1: string, a: Json, k2: string, b: Json)
    requires k1 != k2
    ensures var j := JObj([Field(k1, a), Field(k2, b)]);
            ObjectWithKeys(j, {k1, k2}) && SeedArtifact.Property(j, k1) == a && SeedArtifact.Property(j, k2) == b
  {
    var j := JObj([Field(k1, a), Field(k2, b)]);
    var keys := Keys(j.fields);
    assert keys[0] == k1 && keys[1] == k2;
    assert (set key | key in keys) == {k1, k2};
    assert j.fields[1..] == [Field(k2, b)];
    assert Lookup([Field(k2, b)], k2) == Some(b);
    assert Lookup(j.fields, k2) == Lookup(j.fields[1..], k2);
  }

  lemma EntryShape(d: Dispatch)
    ensures EntryOk(EntryJson(d), d.table) && EntryRows(EntryJson(d), d.table) == d.rows
  {
    hide ObjectWithKeys, SeedArtifact.Property, TableName;
    TwoFields("table", JStr(TableName(d.table)), "rows", JArr(Map((row: Record) => JObj(row), d.rows)));
    assert EntryJson(d)
           == JObj([Field("table", JStr(TableName(d.table))),
                    Field("rows", JArr(Map((row: Record) => JObj(row), d.rows)))]);
  }

  lemma ArtifactGrammar(output: SeedOutput, target: string)
    requires target in ALLOWED_TARGETS
    ensures GrammarOk(ArtifactJson(target, DispatchesOf(output)), target)
    ensures forall i :: 0 <= i < |TABLE_ORDER| ==>
              EntryRows(SeedArtifact.Property(ArtifactJson(target, DispatchesOf(output)), "tables").items[i],
                        TABLE_ORDER[i])
              == Records(output, TABLE_ORDER[i])
  {
    hide ObjectWithKeys, SeedArtifact.Property, EntryOk, EntryRows, EntryJson, Records;
    var dispatches := DispatchesOf(output);
    var entries := Map(EntryJson, dispatches);
    TwoFields("target", JStr(target), "tables", JArr(entries));
    forall i | 0 <= i < |TABLE_ORDER|
      ensures EntryOk(entries[i], TABLE_ORDER[i])
              && EntryRows(entries[i], TABLE_ORDER[i]) == Records(output, TABLE_ORDER[i])
    {
      EntryShape(dispatches[i]);
    }
  }

  /** Reading the dispatched artifact back yields every table's records. */
  lemma AcceptedRecords(output: SeedOutput, target: string)
    requires target in ALLOWED_TARGETS
    ensures GrammarOk(ArtifactJson(target, DispatchesOf(output)), target)
    ensures var tables := AcceptedTables(ArtifactJson(target, DispatchesOf(output)), target);
            Complete(tables) && forall table :: table in TABLE_ORDER ==> tables[table] == Records(output, table)
  {
    hide GrammarOk, TablesUpTo, EntryRows, SeedArtifact.Property, ArtifactJson, Records;
    ArtifactGrammar(output, target);
    TablesComplete(ArtifactJson(target, DispatchesOf(output)), target, |TABLE_ORDER|);
  }

  // ----- Cells survive dispatch

  lemma RoastRecordCell(r: CloudRoast, c: Column)
    requires c in Columns(CloudRoasts)
    ensures Get(RoastRecord(r), Name(c)) == RoastCell(r, c)
  {
    hide Name, Columns, RoastCell, Get, AsRecord;
    RecordKeepsCells(CloudRoasts, x => RoastCell(r, x), c);
  }

  lemma TelemetryRecordCell(r: Telemetry, c: Column)
    requires c in Columns(RoastTelemetry)
    ensures Get(TelemetryRecord(r), Name(c)) == TelemetryCell(r, c)
  {
    hide Name, Columns, TelemetryCell, Get, AsRecord;
    RecordKeepsCells(RoastTelemetry, x => TelemetryCell(r, x), c);
  }

  lemma ArtifactRecordCell(r: Artifact, c: Column)
    requires c in Columns(RoastArtifacts)
    ensures Get(ArtifactRecord(r), Name(c)) == ArtifactCell(r, c)
  {
    hide Name, Columns, ArtifactCell, Get, AsRecord;
    RecordKeepsCells(RoastArtifacts, x => ArtifactCell(r, x), c);
  }

  lemma ReviewRecordCell(r: Review, c: Column)
    requires c in Columns(TastingReviews)
    ensures Get(ReviewRecord(r), Name(c)) == ReviewCell(r, c)
  {
    hide Name, Columns, ReviewCell, Get, AsRecord;
    RecordKeepsCells(TastingReviews, x => ReviewCell(r, x), c);
  }

  lemma SummaryRecordCell(r: ReferenceSummary, c: Column)
    requires c in Columns(ReferenceRoastSummaries)
    ensures Get(SummaryRecord(r), Name(c)) == SummaryCell(r, c)
  {
    hide Name, Columns, SummaryCell, Get, AsRecord;
    RecordKeepsCells(ReferenceRoastSummaries, x => SummaryCell(r, x), c);
  }

  function RowCount(output: SeedOutput, table: SeedTable): nat {
    match table
    case CloudRoasts => |output.cloudRoasts|
    case RoastTelemetry => |output.roastTelemetry|
    case RoastArtifacts => |output.roastArtifacts|
    case TastingReviews => |output.tastingReviews|
    case ReferenceRoastSummaries => |output.referenceRoastSummaries|
  }

  /** What the typed output holds in one column of one row. */
  function CellOf(output: SeedOutput, table: SeedTable, i: nat, c: Column): Json
    requires i < RowCount(output, table)
  {
    match table
    case CloudRoasts => RoastCell(output.cloudRoasts[i], c)
    case RoastTelemetry => TelemetryCell(output.roastTelemetry[i], c)
    case RoastArtifacts => ArtifactCell(output.roastArtifacts[i], c)
    case TastingReviews => ReviewCell(output.tastingReviews[i], c)
    case ReferenceRoastSummaries => SummaryCell(output.referenceRoastSummaries[i], c)
  }

  lemma RecordCell(output: SeedOutput, table: SeedTable, i: nat, c: Column)
    requires i < RowCount(output, table) && c in Columns(table)
    ensures |Records(output, table)| == RowCount(output, table)
    ensures Get(Records(output, table)[i], Name(c)) == CellOf(output, table, i, c)
  {
    hide Name, Columns, RoastCell, TelemetryCell, ArtifactCell, ReviewCell, SummaryCell, Get,
      RoastRecord, TelemetryRecord, ArtifactRecord, ReviewRecord, SummaryRecord;
    match table
    case CloudRoasts => RoastRecordCell(output.cloudRoasts[i], c);
    case RoastTelemetry => TelemetryRecordCell(output.roastTelemetry[i], c);
    case RoastArtifacts => ArtifactRecordCell(output.roastArtifacts[i], c);
    case TastingReviews => ReviewRecordCell(output.tastingReviews[i], c);
    case ReferenceRoastSummaries => SummaryRecordCell(output.referenceRoastSummaries[i], c);
  }

  lemma RecordCount(output: SeedOutput, table: SeedTable)
    ensures |Records(output, table)| == RowCount(output, table)
  {
  }

  lemma RecordValues(output: SeedOutput, table: SeedTable, c: Column)
    requires c in Columns(table)
    ensures |ValuesIn(Records(output, table), c)| == RowCount(output, table)
    ensures forall i :: 0 <= i < RowCount(output, table) ==>
            ValuesIn(Records(output, table), c)[i] == CellOf(output, table, i, c)
  {
    hide Columns, Name, Get, Records, CellOf;
    RecordCount(output, table);
    forall i | 0 <= i < RowCount(output, table)
      ensures ValuesIn(Records(output, table), c)[i] == CellOf(output, table, i, c)
    {
      RecordCell(output, table, i, c);
    }
  }

  // ----- Identities

  lemma {:induction false} TrackedKeepsDistinct<K>(keys: seq<Option<K>>, n: nat)
    requires n <= |keys| && Distinct(Tracked(keys, n))
    ensures forall i, j :: 0 <= i < j < n && keys[i].Some? ==> keys[i] != keys[j]
  {
    if n > 0 {
      if keys[n - 1].Some? {
        DistinctAppend(Tracked(keys, n - 1), keys[n - 1].value);
        TrackedMembers(keys, n - 1);
        assert forall i :: 0 <= i < n - 1 ==> keys[i] in keys[..n - 1];
      }
      TrackedKeepsDistinct(keys, n - 1);
    }
  }

  predicate IdsGiven(output: SeedOutput) {
    forall r :: r in output.cloudRoasts ==> r.id.Some?
  }

  /** Valid output gives the loader pairwise distinct ids, keys and slugs. */
  lemma ValidIdentitiesDistinct(output: SeedOutput)
    requires IdentitiesUnique(output) && IdsGiven(output)
    ensures IdentitiesDistinct(Records(output, CloudRoasts))
  {
    hide Tracked, Records, ValuesIn, Columns;
    var roasts := output.cloudRoasts;
    RoastColumns();
    RecordValues(output, CloudRoasts, Id);
    RecordValues(output, CloudRoasts, IdempotencyKey);
    RecordValues(output, CloudRoasts, PublicSlug);
    TrackedKeepsDistinct(RoastIdKeys(roasts), |roasts|);
    TrackedKeepsDistinct(IdempotencyKeys(roasts), |roasts|);
    TrackedKeepsDistinct(SlugKeys(roasts), |roasts|);
    forall i, j | 0 <= i < j < |roasts|
      ensures RoastCell(roasts[i], Id) != RoastCell(roasts[j], Id)
      ensures RoastCell(roasts[i], IdempotencyKey) != RoastCell(roasts[j], IdempotencyKey)
      ensures RoastCell(roasts[i], PublicSlug) != RoastCell(roasts[j], PublicSlug)
    {
      assert RoastIdKeys(roasts)[i] != RoastIdKeys(roasts)[j];
      assert IdempotencyKeys(roasts)[i] != IdempotencyKeys(roasts)[j] && SlugKeys(roasts)[i] != SlugKeys(roasts)[j];
    }
  }

  lemma RoastColumns()
    ensures Id in Columns(CloudRoasts) && IdempotencyKey in Columns(CloudRoasts) && PublicSlug in Columns(CloudRoasts)
  {
    var columns := Columns(CloudRoasts);
    assert columns[0] == Id && columns[1] == IdempotencyKey && columns[3] == PublicSlug;
  }

  // ----- Acceptance

  lemma RoastIdsAccepted(output: SeedOutput, isIP: string -> bool)
    requires forall r :: r in output.cloudRoasts ==> RoastOk(r, isIP)
    requires DistinctPresent(RoastIdKeys(output.cloudRoasts))
    ensures RoastIdsOk(Records(output, CloudRoasts)) <==> output.cloudRoasts != [] && IdsGiven(output)
  {
    hide Tracked, Records, ValuesIn, Columns, RoastOk;
    var roasts, ids := output.cloudRoasts, ValuesIn(Records(output, CloudRoasts), Id);
    RoastColumns();
    RecordValues(output, CloudRoasts, Id);
    TrackedKeepsDistinct(RoastIdKeys(roasts), |roasts|);
    forall i | 0 <= i < |roasts| ensures NonEmptyText(ids[i]) <==> roasts[i].id.Some? {
      GivenIdNotEmpty(roasts[i], isIP);
      assert ids[i] == RoastCell(roasts[i], Id);
    }
    if IdsGiven(output) {
      forall i, j | 0 <= i < j < |roasts| ensures ids[i] != ids[j] {
        assert RoastIdKeys(roasts)[i] != RoastIdKeys(roasts)[j];
        assert ids[i] == RoastCell(roasts[i], Id) && ids[j] == RoastCell(roasts[j], Id);
      }
    }
    if RoastIdsOk(Records(output, CloudRoasts)) {
      forall r | r in roasts ensures r.id.Some? {
        var i :| 0 <= i < |roasts| && roasts[i] == r;
        assert NonEmptyText(ids[i]);
      }
    }
  }

  lemma GivenIdNotEmpty(r: CloudRoast, isIP: string -> bool)
    requires RoastOk(r, isIP)
    ensures r.id.Some? ==> r.id.value != ""
  {
    hide CleanVariant, NoRawIpCells, InRange, IsValidSlug;
  }

  lemma ParentsAccepted(output: SeedOutput, table: SeedTable)
    requires ChildrenReferenceRoasts(output) && table in CHILD_TABLES
    ensures ParentsOk(Records(output, CloudRoasts), Records(output, table))
  {
    hide Records, ValuesIn, Columns, Get, Name;
    var parents := ValuesIn(Records(output, CloudRoasts), Id);
    RoastColumns();
    ChildColumns(table);
    RecordValues(output, CloudRoasts, Id);
    RecordCount(output, table);
    forall i | 0 <= i < RowCount(output, table) ensures Get(Records(output, table)[i], Name(RoastId)) in parents {
      RecordCell(output, table, i, RoastId);
      var id := ParentOf(output, table, i);
      var j :| 0 <= j < |output.cloudRoasts| && output.cloudRoasts[j].id == Some(id);
      assert parents[j] == JStr(id);
    }
  }

  function ParentOf(output: SeedOutput, table: SeedTable, i: nat): (id: string)
    requires ChildrenReferenceRoasts(output) && table in CHILD_TABLES && i < RowCount(output, table)
    ensures CellOf(output, table, i, RoastId) == JStr(id)
    ensures exists j :: 0 <= j < |output.cloudRoasts| && output.cloudRoasts[j].id == Some(id)
  {
    KnownRoastIds(output.cloudRoasts);
    match table
    case RoastTelemetry => output.roastTelemetry[i].roastId
    case RoastArtifacts => output.roastArtifacts[i].roastId
    case TastingReviews => output.tastingReviews[i].roastId
  }

  lemma KnownRoastIds(roasts: seq<CloudRoast>)
    ensures forall id :: id in SeedRelations.RoastIds(roasts) ==>
            exists j :: 0 <= j < |roasts| && roasts[j].id == Some(id)
  {
  }

  lemma ChildColumns(table: SeedTable)
    requires table in CHILD_TABLES
    ensures RoastId in Columns(table)
  {
    match table
    case RoastTelemetry => assert Columns(table)[0] == RoastId;
    case RoastArtifacts => assert Columns(table)[1] == RoastId;
    case TastingReviews => assert Columns(table)[1] == RoastId;
  }

  /** The loader's reading of a stored hash, on the typed row. */
  predicate HashFresh(r: Review, now: int) {
    r.submittedIpHash.Some? ==>
      && LowerHash(JStr(r.submittedIpHash.value))
      && StrictIso(r.createdAt)
      && var created := EpochMicroseconds(r.createdAt);
         created.Some? && created.value <= now && now - created.value < IP_RETENTION_MICROS
  }

  lemma ReviewColumns()
    ensures SubmittedIpHash in Columns(TastingReviews) && CreatedAt in Columns(TastingReviews)
  {
    var columns := Columns(TastingReviews);
    assert columns[11] == SubmittedIpHash && columns[12] == CreatedAt;
  }

  lemma HashAccepted(r: Review, now: int)
    ensures HashOk(ReviewRecord(r), now) <==> HashFresh(r, now)
  {
    hide Columns, Get, Name, StrictIso, EpochMicroseconds, ReviewRecord, LowerHash;
    ReviewColumns();
    ReviewRecordCell(r, SubmittedIpHash);
    ReviewRecordCell(r, CreatedAt);
  }

  lemma SummaryColumns()
    ensures BeanOrigin in Columns(ReferenceRoastSummaries) && RoastLevel in Columns(ReferenceRoastSummaries)
  {
    var columns := Columns(ReferenceRoastSummaries);
    assert columns[1] == BeanOrigin && columns[2] == RoastLevel;
  }

  predicate GroupsNamed(output: SeedOutput) {
    forall i :: 0 <= i < |output.referenceRoastSummaries| ==>
      output.referenceRoastSummaries[i].beanOrigin != "" && output.referenceRoastSummaries[i].roastLevel != ""
  }

  lemma GroupsAccepted(output: SeedOutput)
    requires DistinctPresent(SummaryGroupKeys(output.referenceRoastSummaries))
    ensures GroupsOk(Records(output, ReferenceRoastSummaries)) <==> GroupsNamed(output)
  {
    hide Tracked, Columns, Get, Name, SummaryRecord;
    var rows, records := output.referenceRoastSummaries, Records(output, ReferenceRoastSummaries);
    var groups := GroupsOf(records);
    SummaryColumns();
    TrackedKeepsDistinct(SummaryGroupKeys(rows), |rows|);
    forall i | 0 <= i < |rows|
      ensures groups[i] == (JStr(rows[i].beanOrigin), JStr(rows[i].roastLevel)) && GroupOf(records[i]) == groups[i]
    {
      SummaryRecordCell(rows[i], BeanOrigin);
      SummaryRecordCell(rows[i], RoastLevel);
    }
    forall i, j | 0 <= i < j < |rows| ensures groups[i] != groups[j] {
      assert SummaryGroupKeys(rows)[i] != SummaryGroupKeys(rows)[j];
    }
  }

  /** Exactly when the loader accepts what was dispatched from valid output. */
  lemma DispatchAcceptedExactly(output: SeedOutput, validatedAt: int, isIP: string -> bool, target: string, now: int)
    requires ValidOutput(output, validatedAt, isIP) && target in ALLOWED_TARGETS
    ensures ArtifactAccepted(ArtifactJson(target, DispatchesOf(output)), target, now)
            <==> && output.cloudRoasts != [] && IdsGiven(output) && GroupsNamed(output)
                 && forall r :: r in output.tastingReviews ==> HashFresh(r, now)
  {
    hide GrammarOk, TablesUpTo, ArtifactJson, RoastOk, TelemetryOk, ArtifactOk, ReviewOk, SummaryOk, Covered,
      AggregatesMatch, DistinctPresent, ParentsOk, HashOk, HashFresh, GroupsOk, GroupsNamed, RoastIdsOk, IdsGiven,
      ChildrenReferenceRoasts;
    AcceptedRecords(output, target);
    RoastIdsAccepted(output, isIP);
    GroupsAccepted(output);
    forall table | table in CHILD_TABLES ensures ParentsOk(Records(output, CloudRoasts), Records(output, table)) {
      ParentsAccepted(output, table);
    }
    HashesAccepted(output, now);
    OrderMembers();
  }

  lemma OrderMembers()
    ensures forall table: SeedTable :: table in TABLE_ORDER
    ensures forall table :: table in CHILD_TABLES ==> table in TABLE_ORDER
  {
    assert TABLE_ORDER[0] == CloudRoasts && TABLE_ORDER[1] == RoastTelemetry && TABLE_ORDER[2] == RoastArtifacts
           && TABLE_ORDER[3] == TastingReviews && TABLE_ORDER[4] == ReferenceRoastSummaries;
    forall table: SeedTable ensures table in TABLE_ORDER {
      match table
      case CloudRoasts =>
      case RoastTelemetry =>
      case RoastArtifacts =>
      case TastingReviews =>
      case ReferenceRoastSummaries =>
    }
  }

  lemma HashesAccepted(output: SeedOutput, now: int)
    ensures (forall i :: 0 <= i < |Records(output, TastingReviews)| ==> HashOk(Records(output, TastingReviews)[i], now))
            <==> forall r :: r in output.tastingReviews ==> HashFresh(r, now)
  {
    hide HashOk, HashFresh, ReviewRecord;
    forall i | 0 <= i < |output.tastingReviews|
      ensures HashOk(Records(output, TastingReviews)[i], now) <==> HashFresh(output.tastingReviews[i], now)
    {
      HashAccepted(output.tastingReviews[i], now);
    }
  }
}

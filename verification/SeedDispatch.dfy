/** From generated output to the JSON artifact: target guard, integrity check, null-stripping, dispatch order. */
module SeedDispatch {
  import opened Wrappers
  import opened Sequences
  import SqlText
  import opened JsonTrees
  import opened SeedTypes
  import opened SeedColumnNames
  import opened SeedRules
  import opened SeedRelations
  import opened SeedCheck

  /** An object as a list of fields, in property order. */
  type Record = seq<Field>

  function Keys(record: Record): seq<string> {
    Map((f: Field) => f.key, record)
  }

  /** `dict.get`: the value under a key, or null. */
  function Get(record: Record, key: string): Json {
    var found := Lookup(record, key);
    if found.Some? then found.value else JNull
  }

  /** `Object.entries` of a typed row. */
  function Entries(table: SeedTable, cells: Column -> Json): Record {
    Map((c: Column) => Field(Name(c), cells(c)), Columns(table))
  }

  function StripNulls(record: Record): Record {
    Filter((f: Field) => f.value != JNull, record)
  }

  function AsRecord(table: SeedTable, cells: Column -> Json): Record {
    StripNulls(Entries(table, cells))
  }

  lemma {:induction false} LookupFinds(record: Record, k: nat)
    requires k < |record| && Distinct(Keys(record))
    ensures Lookup(record, record[k].key) == Some(record[k].value)
  {
    if k > 0 {
      assert Keys(record)[0] != Keys(record)[k];
      assert Keys(record[1..]) == Keys(record)[1..];
      LookupFinds(record[1..], k - 1);
    }
  }

  lemma {:induction false} LookupMisses(record: Record, key: string)
    requires key !in Keys(record)
    ensures Lookup(record, key) == None
  {
    if record != [] {
      assert Keys(record)[0] == record[0].key;
      assert Keys(record[1..]) == Keys(record)[1..];
      LookupMisses(record[1..], key);
    }
  }

  lemma {:induction false} StripNullsKeys(record: Record)
    requires Distinct(Keys(record))
    ensures Distinct(Keys(StripNulls(record)))
    ensures forall key :: key in Keys(StripNulls(record)) ==> key in Keys(record)
  {
    if record != [] {
      var init, last := record[..|record| - 1], record[|record| - 1];
      assert Keys(record) == Keys(init) + [last.key];
      DistinctAppend(Keys(init), last.key);
      StripNullsKeys(init);
      if last.value != JNull {
        assert Keys(StripNulls(record)) == Keys(StripNulls(init)) + [last.key];
        DistinctAppend(Keys(StripNulls(init)), last.key);
      }
    }
  }

  /** Dropping null properties and reading missing ones as null cancel out. */
  lemma StripNullsInvisible(record: Record, key: string)
    requires Distinct(Keys(record))
    ensures Get(StripNulls(record), key) == Get(record, key)
  {
    var stripped := StripNulls(record);
    StripNullsKeys(record);
    if key in Keys(record) {
      var k :| 0 <= k < |record| && record[k].key == key;
      LookupFinds(record, k);
      if record[k].value == JNull {
        if key in Keys(stripped) {
          var i :| 0 <= i < |stripped| && stripped[i].key == key;
          assert stripped[i] in stripped;
          var h :| 0 <= h < |record| && record[h] == stripped[i];
          LookupFinds(record, h);
          assert false;
        }
        LookupMisses(stripped, key);
      } else {
        assert record[k] in stripped;
        var i :| 0 <= i < |stripped| && stripped[i] == record[k];
        LookupFinds(stripped, i);
      }
    } else {
      LookupMisses(record, key);
      LookupMisses(stripped, key);
    }
  }

  lemma EntriesKeysDistinct(table: SeedTable, cells: Column -> Json)
    ensures Distinct(Keys(Entries(table, cells)))
  {
    hide Name;
    var columns := Columns(table);
    forall i, j | 0 <= i < j < |columns| ensures Name(columns[i]) != Name(columns[j]) {
      ColumnsDistinct(table, i, j);
      if Name(columns[i]) == Name(columns[j]) { NamesInjective(columns[i], columns[j]); }
    }
  }

  /** Where a column stands in a table's column list. */
  function RoastPosition(c: Column): nat {
    match c
    case Id => 0 case IdempotencyKey => 1 case OwnerId => 2 case PublicSlug => 3 case Visibility => 4
    case BeanOrigin => 5 case BeanVarietal => 6 case BeanWeightG => 7 case ProfileName => 8 case RoastLevel => 9
    case Summary => 10 case OperatorRating => 11 case OperatorNotes => 12 case ContributedToLearning => 13
    case RoastedAtUtc => 14 case CreatedAt => 15 case _ => 16
  }

  function SummaryPosition(c: Column): nat {
    match c
    case Id => 0 case BeanOrigin => 1 case RoastLevel => 2 case RoastCount => 3 case ReviewCount => 4
    case AvgRating => 5 case FirstCrackTempAvgC => 6 case FirstCrackTempStddevC => 7 case DropTempAvgC => 8
    case DropTempStddevC => 9 case DevelopmentPercentAvg => 10 case FirstCrackTimeAvgS => 11
    case TotalTimeAvgS => 12 case KeyPatterns => 13 case _ => 14
  }

  lemma RoastColumnsDistinct(k: nat)
    requires k < 17
    ensures RoastPosition(Columns(CloudRoasts)[k]) == k
  {
  }

  lemma EarlySummaryColumns(k: nat)
    requires k < 8
    ensures SummaryPosition(Columns(ReferenceRoastSummaries)[k]) == k
  {
  }

  lemma LateSummaryColumns(k: nat)
    requires 8 <= k < 15
    ensures SummaryPosition(Columns(ReferenceRoastSummaries)[k]) == k
  {
  }

  lemma SummaryColumnsDistinct(k: nat)
    requires k < 15
    ensures SummaryPosition(Columns(ReferenceRoastSummaries)[k]) == k
  {
    hide SummaryPosition;
    if k < 8 { EarlySummaryColumns(k); } else { LateSummaryColumns(k); }
  }

  lemma ColumnsDistinct(table: SeedTable, i: nat, j: nat)
    requires i < j < |Columns(table)|
    ensures Columns(table)[i] != Columns(table)[j]
  {
    hide RoastPosition, SummaryPosition;
    match table
    case CloudRoasts => RoastColumnsDistinct(i); RoastColumnsDistinct(j);
    case ReferenceRoastSummaries => SummaryColumnsDistinct(i); SummaryColumnsDistinct(j);
    case RoastTelemetry => assert Distinct(Columns(RoastTelemetry));
    case RoastArtifacts => assert Distinct(Columns(RoastArtifacts));
    case TastingReviews => ReviewColumnsDistinct(i, j);
  }

  lemma ReviewColumnsDistinct(i: nat, j: nat)
    requires i < j < 13
    ensures Columns(TastingReviews)[i] != Columns(TastingReviews)[j]
  {
  }

  /** A dispatched record still answers for every column of its row. */
  lemma RecordKeepsCells(table: SeedTable, cells: Column -> Json, c: Column)
    requires c in Columns(table)
    ensures Get(AsRecord(table, cells), Name(c)) == cells(c)
  {
    hide Name, Columns;
    var entries := Entries(table, cells);
    EntriesKeysDistinct(table, cells);
    StripNullsInvisible(entries, Name(c));
    var k :| 0 <= k < |Columns(table)| && Columns(table)[k] == c;
    LookupFinds(entries, k);
  }

  // ----- Target guard

  const ALLOWED_SEED_DATABASES := ["ROASTPILOT_PREVIEW", "ROASTPILOT_DEV"]

  /** ASCII whitespace as JavaScript's `trim` sees it. */
  predicate IsSpace(c: char) {
    c == ' ' || c == '\t' || c == '\n' || c == '\r' || c == 11 as char || c == 12 as char
  }

  function Trim(s: string): string
    decreases |s|
  {
    if s != "" && IsSpace(s[0]) then Trim(s[1..])
    else if s != "" && IsSpace(s[|s| - 1]) then Trim(s[..|s| - 1])
    else s
  }

  /** The normalised target, if it is one of the two non-production databases. */
  function NonProdTarget(database: Option<string>): (r: Option<string>)
    ensures r.Some? ==> r.value in ALLOWED_SEED_DATABASES
  {
    if database.Some? && SqlText.Upper(Trim(database.value)) in ALLOWED_SEED_DATABASES
    then Some(SqlText.Upper(Trim(database.value))) else None
  }

  // ----- Dispatch

  function RoastRecord(r: CloudRoast): Record {
    AsRecord(CloudRoasts, c => RoastCell(r, c))
  }

  function TelemetryRecord(r: Telemetry): Record {
    AsRecord(RoastTelemetry, c => TelemetryCell(r, c))
  }

  function ArtifactRecord(r: Artifact): Record {
    AsRecord(RoastArtifacts, c => ArtifactCell(r, c))
  }

  function ReviewRecord(r: Review): Record {
    AsRecord(TastingReviews, c => ReviewCell(r, c))
  }

  function SummaryRecord(r: ReferenceSummary): Record {
    AsRecord(ReferenceRoastSummaries, c => SummaryCell(r, c))
  }

  const TABLE_ORDER := [CloudRoasts, RoastTelemetry, RoastArtifacts, TastingReviews, ReferenceRoastSummaries]

  function Records(output: SeedOutput, table: SeedTable): seq<Record> {
    match table
    case CloudRoasts => Map(RoastRecord, output.cloudRoasts)
    case RoastTelemetry => Map(TelemetryRecord, output.roastTelemetry)
    case RoastArtifacts => Map(ArtifactRecord, output.roastArtifacts)
    case TastingReviews => Map(ReviewRecord, output.tastingReviews)
    case ReferenceRoastSummaries => Map(SummaryRecord, output.referenceRoastSummaries)
  }

  /** One call of the `execute` sink. */
  datatype Dispatch = Dispatch(table: SeedTable, rows: seq<Record>)

  datatype Dispatched = Dispatched(target: string, dispatches: seq<Dispatch>, rowCounts: map<SeedTable, nat>)

  datatype DispatchError = RejectedTarget | InvalidNow | Violations(violations: seq<Violation>)

  function DispatchesOf(output: SeedOutput): seq<Dispatch> {
    Map((table: SeedTable) => Dispatch(table, Records(output, table)), TABLE_ORDER)
  }

  method DispatchAll(output: SeedOutput) returns (dispatches: seq<Dispatch>, rowCounts: map<SeedTable, nat>)
    ensures dispatches == DispatchesOf(output)
    ensures rowCounts == map table | table in TABLE_ORDER :: |Records(output, table)|
  {
    hide Records;
    dispatches, rowCounts := [], map[];
    for i := 0 to |TABLE_ORDER|
      invariant dispatches == DispatchesOf(output)[..i]
      invariant rowCounts == map table | table in TABLE_ORDER[..i] :: |Records(output, table)|
    {
      var table := TABLE_ORDER[i];
      var rows := Records(output, table);
      assert TABLE_ORDER[..i + 1] == TABLE_ORDER[..i] + [table];
      rowCounts := rowCounts[table := |rows|];
      dispatches := dispatches + [Dispatch(table, rows)];
    }
    assert TABLE_ORDER[..|TABLE_ORDER|] == TABLE_ORDER;
  }

  method RunSeedLoad(database: Option<string>, output: SeedOutput, now: Option<int>, isIP: string -> bool)
    returns (result: Result<Dispatched, DispatchError>)
    ensures result.Success? <==>
              NonProdTarget(database).Some? && now.Some? && ValidOutput(output, now.value, isIP)
    ensures result.Success? ==>
              && Some(result.value.target) == NonProdTarget(database)
              && result.value.dispatches == DispatchesOf(output)
              && result.value.rowCounts == map table | table in TABLE_ORDER :: |Records(output, table)|
  {
    hide ValidOutput, Records, NonProdTarget;
    var target := NonProdTarget(database);
    if target.None? {
      return Failure(RejectedTarget);
    }
    if now.None? {
      return Failure(InvalidNow);
    }
    var violations := ValidateSeedOutput(output, now.value, isIP);
    if violations != [] {
      return Failure(Violations(violations));
    }
    var dispatches, rowCounts := DispatchAll(output);
    result := Success(Dispatched(target.value, dispatches, rowCounts));
  }

  // ----- The emitted artifact

  function TableName(table: SeedTable): string {
    match table
    case CloudRoasts => "cloud_roasts"
    case RoastTelemetry => "roast_telemetry"
    case RoastArtifacts => "roast_artifacts"
    case TastingReviews => "tasting_reviews"
    case ReferenceRoastSummaries => "reference_roast_summaries"
  }

  function EntryJson(d: Dispatch): Json {
    JObj([Field("table", JStr(TableName(d.table))), Field("rows", JArr(Map((row: Record) => JObj(row), d.rows)))])
  }

  /** What the JSON sink finalizes for a run. */
  function ArtifactJson(target: string, dispatches: seq<Dispatch>): Json {
    JObj([Field("target", JStr(target)), Field("tables", JArr(Map(EntryJson, dispatches)))])
  }
}

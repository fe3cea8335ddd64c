/** The loader's closed grammar for the JSON artifact. */
module SeedArtifact {
  import opened Wrappers
  import opened Sequences
  import opened IsoTime
  import opened JsonTrees
  import opened SeededRandom
  import opened SeedTypes
  import opened SeedDispatch

  datatype ArtifactError =
    | RejectedTarget | ArtifactKeys | TargetMismatch | TableList | TableEntry
    | RoastIds | UnknownParent | HashShape | HashTimestamp | HashInFuture | HashPastRetention | ReferenceGroups

  type TableRows = map<SeedTable, seq<Record>>

  const ALLOWED_TARGETS := {"ROASTPILOT_PREVIEW", "ROASTPILOT_DEV"}
  const IP_RETENTION_MICROS := 30 * 24 * 60 * 60 * 1_000_000
  const CHILD_TABLES := [RoastTelemetry, RoastArtifacts, TastingReviews]

  predicate ObjectWithKeys(j: Json, keys: set<string>) {
    j.JObj? && (set key | key in Keys(j.fields)) == keys
  }

  function Property(j: Json, key: string): Json {
    if j.JObj? then Get(j.fields, key) else JNull
  }

  predicate EntryOk(entry: Json, table: SeedTable) {
    && ObjectWithKeys(entry, {"table", "rows"})
    && Property(entry, "table") == JStr(TableName(table))
    && Property(entry, "rows").JArr?
    && forall i :: 0 <= i < |Property(entry, "rows").items| ==> Property(entry, "rows").items[i].JObj?
  }

  function EntryRows(entry: Json, table: SeedTable): seq<Record>
    requires EntryOk(entry, table)
  {
    var items := Property(entry, "rows").items;
    seq(|items|, i requires 0 <= i < |items| => items[i].fields)
  }

  /** The artifact is exactly a target and five tables of objects, in order. */
  predicate GrammarOk(artifact: Json, target: string) {
    && target in ALLOWED_TARGETS
    && ObjectWithKeys(artifact, {"target", "tables"})
    && Property(artifact, "target") == JStr(target)
    && Property(artifact, "tables").JArr?
    && |Property(artifact, "tables").items| == |TABLE_ORDER|
    && forall i :: 0 <= i < |TABLE_ORDER| ==> EntryOk(Property(artifact, "tables").items[i], TABLE_ORDER[i])
  }

  /** The rows of the first `n` tables. */
  function TablesUpTo(artifact: Json, target: string, n: nat): TableRows
    requires GrammarOk(artifact, target) && n <= |TABLE_ORDER|
  {
    if n == 0 then map[] else
      var table := TABLE_ORDER[n - 1];
      TablesUpTo(artifact, target, n - 1)[table := EntryRows(Property(artifact, "tables").items[n - 1], table)]
  }

  predicate Complete(tables: TableRows) {
    forall table :: table in TABLE_ORDER ==> table in tables
  }

  lemma {:induction false} TablesComplete(artifact: Json, target: string, n: nat)
    requires GrammarOk(artifact, target) && n <= |TABLE_ORDER|
    ensures forall i :: 0 <= i < n ==> TABLE_ORDER[i] in TablesUpTo(artifact, target, n)
    ensures forall i :: 0 <= i < n ==>
              TablesUpTo(artifact, target, n)[TABLE_ORDER[i]]
                == EntryRows(Property(artifact, "tables").items[i], TABLE_ORDER[i])
  {
    hide EntryRows, EntryOk, ObjectWithKeys, Property;
    if n > 0 {
      TablesComplete(artifact, target, n - 1);
      OrderDistinct();
    }
  }

  lemma OrderDistinct()
    ensures Distinct(TABLE_ORDER)
  {
  }

  method ReadTables(artifact: Json, target: string) returns (result: Result<TableRows, ArtifactError>)
    ensures result.Success? <==> GrammarOk(artifact, target)
    ensures result.Success? ==> result.value == TablesUpTo(artifact, target, |TABLE_ORDER|)
  {
    hide ObjectWithKeys, Property, EntryOk;
    if target !in ALLOWED_TARGETS { return Failure(ArtifactError.RejectedTarget); }
    if !ObjectWithKeys(artifact, {"target", "tables"}) { return Failure(ArtifactKeys); }
    if Property(artifact, "target") != JStr(target) { return Failure(TargetMismatch); }
    var tables := Property(artifact, "tables");
    if !tables.JArr? || |tables.items| != |TABLE_ORDER| { return Failure(TableList); }
    for i := 0 to |TABLE_ORDER|
      invariant forall k :: 0 <= k < i ==> EntryOk(tables.items[k], TABLE_ORDER[k])
    {
      if !EntryOk(tables.items[i], TABLE_ORDER[i]) { return Failure(TableEntry); }
    }
    var validated: TableRows := map[];
    for i := 0 to |TABLE_ORDER|
      invariant validated == TablesUpTo(artifact, target, i)
    {
      validated := validated[TABLE_ORDER[i] := EntryRows(tables.items[i], TABLE_ORDER[i])];
    }
    result := Success(validated);
  }

  // ----- Row checks

  function ValuesIn(rows: seq<Record>, c: Column): seq<Json> {
    Map((row: Record) => Get(row, Name(c)), rows)
  }

  predicate NonEmptyText(j: Json) {
    j.JStr? && j.s != ""
  }

  predicate RoastIdsOk(roasts: seq<Record>) {
    var ids := ValuesIn(roasts, Id);
    && ids != [] && (forall i :: 0 <= i < |ids| ==> NonEmptyText(ids[i])) && Distinct(ids)
  }

  predicate ParentsOk(roasts: seq<Record>, children: seq<Record>) {
    forall i :: 0 <= i < |children| ==> Get(children[i], Name(RoastId)) in ValuesIn(roasts, Id)
  }

  /** The instant that `datetime.fromisoformat` reads: microseconds since the epoch. */
  function PyInstant(j: Json): Option<int> {
    if j.JStr? && StrictIso(j.s) then EpochMicroseconds(j.s) else None
  }

  predicate LowerHash(j: Json) {
    j.JStr? && |j.s| == 64 && AllLowerHex(j.s)
  }

  predicate HashOk(review: Record, now: int) {
    var hash := Get(review, Name(SubmittedIpHash));
    hash != JNull ==>
      && LowerHash(hash)
      && var created := PyInstant(Get(review, Name(CreatedAt)));
         created.Some? && created.value <= now && now - created.value < IP_RETENTION_MICROS
  }

  function GroupOf(summary: Record): (Json, Json) {
    (Get(summary, Name(BeanOrigin)), Get(summary, Name(RoastLevel)))
  }

  function GroupsOf(summaries: seq<Record>): seq<(Json, Json)> {
    Map(GroupOf, summaries)
  }

  predicate GroupsOk(summaries: seq<Record>) {
    && (forall i :: 0 <= i < |summaries| ==>
        NonEmptyText(GroupOf(summaries[i]).0) && NonEmptyText(GroupOf(summaries[i]).1))
    && Distinct(GroupsOf(summaries))
  }

  predicate RowsOk(tables: TableRows, now: int)
    requires Complete(tables)
  {
    && RoastIdsOk(tables[CloudRoasts])
    && (forall table :: table in CHILD_TABLES ==> ParentsOk(tables[CloudRoasts], tables[table]))
    && (forall i :: 0 <= i < |tables[TastingReviews]| ==> HashOk(tables[TastingReviews][i], now))
    && GroupsOk(tables[ReferenceRoastSummaries])
  }

  /** What an accepted artifact is, for a load at `now` (microseconds). */
  predicate ArtifactAccepted(artifact: Json, target: string, now: int) {
    && GrammarOk(artifact, target)
    && var tables := TablesUpTo(artifact, target, |TABLE_ORDER|);
       Complete(tables) && RowsOk(tables, now)
  }

  method CheckHash(review: Record, now: int) returns (error: Option<ArtifactError>)
    ensures error.None? <==> HashOk(review, now)
  {
    hide Name, LowerHash, PyInstant;
    var hash := Get(review, Name(SubmittedIpHash));
    if hash == JNull { return None; }
    if !LowerHash(hash) { return Some(HashShape); }
    var created := PyInstant(Get(review, Name(CreatedAt)));
    if created.None? { return Some(HashTimestamp); }
    if created.value > now { return Some(HashInFuture); }
    if now - created.value >= IP_RETENTION_MICROS { return Some(HashPastRetention); }
    error := None;
  }

  method ValidateArtifact(artifact: Json, target: string, now: int) returns (result: Result<TableRows, ArtifactError>)
    ensures result.Success? <==> ArtifactAccepted(artifact, target, now)
    ensures result.Success? ==> result.value == TablesUpTo(artifact, target, |TABLE_ORDER|) && Complete(result.value)
  {
    hide GrammarOk, HashOk, GroupsOk, RoastIdsOk, ParentsOk, TablesUpTo, NonEmptyText, Distinct;
    var tables;
    result := ReadTables(artifact, target);
    if result.Failure? { return; }
    tables := result.value;
    TablesComplete(artifact, target, |TABLE_ORDER|);
    assert Complete(tables);
    if !RoastIdsOk(tables[CloudRoasts]) { return Failure(RoastIds); }
    for i := 0 to |CHILD_TABLES|
      invariant forall k :: 0 <= k < i ==> ParentsOk(tables[CloudRoasts], tables[CHILD_TABLES[k]])
    {
      if !ParentsOk(tables[CloudRoasts], tables[CHILD_TABLES[i]]) { return Failure(UnknownParent); }
    }
    var reviews := tables[TastingReviews];
    for i := 0 to |reviews|
      invariant forall k :: 0 <= k < i ==> HashOk(reviews[k], now)
    {
      var error := CheckHash(reviews[i], now);
      if error.Some? { return Failure(error.value); }
    }
    if !GroupsOk(tables[ReferenceRoastSummaries]) { return Failure(ReferenceGroups); }
  }
}

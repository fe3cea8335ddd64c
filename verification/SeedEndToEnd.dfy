/** The whole path: generated output is dispatched, accepted, loaded, and stored cell by cell as generated. */
module SeedEndToEnd {
  import opened Wrappers
  import opened Sequences
  import opened IsoTime
  import opened JsonTrees
  import opened RawIpText
  import opened SeededRandom
  import opened SeedTypes
  import opened SeedRules
  import opened SeedRelations
  import opened SeedGenerate
  import opened SeedFanOut
  import opened SeedTextClean
  import opened SeedRowsValid
  import opened SeedOutputValid
  import opened SeedDispatch
  import opened SeedArtifact
  import opened SeedDatabase
  import opened SeedLoader
  import opened SeedLoadTheory
  import opened SeedLoadKeeps
  import opened SeedLoadable
  import opened SeedInvariant
  import opened SeedPipeline

  // ----- NOT NULL columns

  lemma RoastAllowed(r: CloudRoast, isIP: string -> bool, c: Column)
    requires RoastOk(r, isIP) && r.id.Some? && c in NotNullColumns(CloudRoasts)
    ensures RoastCell(r, c) != JNull
  {
    hide CleanVariant, NoRawIpCells, InRange, IsValidSlug, IsCloudRoastId;
  }

  lemma TelemetryAllowed(r: Telemetry, isIP: string -> bool, c: Column)
    requires TelemetryOk(r, isIP) && c in NotNullColumns(RoastTelemetry)
    ensures TelemetryCell(r, c) != JNull
  {
    hide CleanVariant, NoRawIpCells, FiniteOrNone, PercentOrNone;
  }

  lemma ReviewAllowed(r: Review, now: int, isIP: string -> bool, c: Column)
    requires ReviewOk(r, now, isIP) && c in NotNullColumns(TastingReviews)
    ensures ReviewCell(r, c) != JNull || c == Id
  {
    hide NoRawIpCells, PercentOrNone, RetentionOk, IsIpHash, Slider;
  }

  lemma SummaryAllowed(output: SeedOutput, s: ReferenceSummary, c: Column)
    requires AggregatesMatch(output, s) && c in NotNullColumns(ReferenceRoastSummaries)
    ensures SummaryCell(s, c) != JNull || c == Id
  {
    hide ContributingRoasts, ReviewsOf, MeansMatch, StrictlyEqual, Mean;
  }

  lemma ValidCellPresent(output: SeedOutput, now: int, isIP: string -> bool, table: SeedTable, i: nat, c: Column)
    requires ValidOutput(output, now, isIP) && IdsGiven(output)
    requires i < RowCount(output, table) && c in NotNullColumns(table)
    ensures CellOf(output, table, i, c) != JNull || (c == Id && CoalescesId(table))
  {
    hide RoastOk, TelemetryOk, ReviewOk, SummaryOk, ArtifactOk, AggregatesMatch, IdentitiesUnique, Covered,
      ChildrenReferenceRoasts, RoastCell, TelemetryCell, ReviewCell, SummaryCell, NotNullColumns;
    match table
    case CloudRoasts => RoastAllowed(output.cloudRoasts[i], isIP, c);
    case RoastTelemetry => TelemetryAllowed(output.roastTelemetry[i], isIP, c);
    case RoastArtifacts => ArtifactAllowed(output.roastArtifacts[i], c);
    case TastingReviews => ReviewAllowed(output.tastingReviews[i], now, isIP, c);
    case ReferenceRoastSummaries => SummaryAllowed(output, output.referenceRoastSummaries[i], c);
  }

  lemma ArtifactAllowed(a: Artifact, c: Column)
    requires c in NotNullColumns(RoastArtifacts)
    ensures ArtifactCell(a, c) != JNull || c == Id
  {
  }

  /** Valid output with explicit ids breaks no NOT NULL column. */
  lemma ValidRecordsAllowed(output: SeedOutput, now: int, isIP: string -> bool, table: SeedTable)
    requires ValidOutput(output, now, isIP) && IdsGiven(output)
    ensures RecordsAllowed(table, Records(output, table))
  {
    hide ValidOutput, IdsGiven, Records, Get, Name, NotNullColumns, CellOf, Columns;
    var records := Records(output, table);
    RecordCount(output, table);
    forall i | 0 <= i < |records| ensures RecordAllowed(table, records[i]) {
      forall c | c in NotNullColumns(table)
        ensures Get(records[i], Name(c)) != JNull || (c == Id && CoalescesId(table))
      {
        NotNullIsColumn(table, c);
        RecordCell(output, table, i, c);
        ValidCellPresent(output, now, isIP, table, i, c);
      }
    }
  }

  // ----- Acceptance of generated output

  const LOAD_WINDOW_MS := 10 * 24 * 60 * 60 * 1000

  lemma StampIsStrict(ms: int)
    requires FourDigitYear(ms / 1000)
    ensures StrictIso(ToIsoString(ms)) && EpochMicroseconds(ToIsoString(ms)) == Some(1000 * ms)
  {
    hide *;
    ToIsoStringRoundTrip(ms);
  }

  lemma DigestIsLowerHash(digest: string -> string, text: string)
    requires HexDigest(digest)
    ensures LowerHash(JStr(digest(text)))
  {
    hide AllLowerHex;
    assert LowerHexHash(digest(text));
  }

  lemma ReviewHashFresh(r: Review, i: nat, roast: CloudRoast, createdMs: int, nowMs: int, digest: string -> string,
                        loadAt: int)
    requires ReviewFrom(r, i, roast, createdMs, nowMs, digest) && HexDigest(digest)
    requires nowMs - RETENTION_SAFE_SECONDS * 1000 <= createdMs
    requires 1000 * nowMs <= loadAt < 1000 * (nowMs + LOAD_WINDOW_MS)
    ensures HashFresh(r, loadAt)
  {
    hide StrictIso, EpochMicroseconds, ToIsoString, InRange, PercentDraw, HexDigest, LowerHash, FourDigitYear;
    if r.submittedIpHash.Some? {
      var token :| r.submittedIpHash.value == digest(SYNTHETIC_IP_TOKEN_PREFIX + token);
      DigestIsLowerHash(digest, SYNTHETIC_IP_TOKEN_PREFIX + token);
      var ms :| createdMs <= ms <= nowMs && FourDigitYear(ms / 1000) && r.createdAt == ToIsoString(ms);
      StampIsStrict(ms);
    }
  }

  lemma GeneratedHashesFresh(output: SeedOutput, bundles: seq<Bundle>, exports: seq<ParsedExport>, nowMs: int,
                             digest: string -> string, isIP: string -> bool, loadAt: int, r: Review)
    requires GenerationHypotheses(output, bundles, exports, nowMs, digest, isIP) && r in output.tastingReviews
    requires 1000 * nowMs <= loadAt < 1000 * (nowMs + LOAD_WINDOW_MS)
    ensures HashFresh(r, loadAt)
  {
    hide HashFresh, PlainChars, RoastFrom, RoastOk, TelemetryFrom, ArtifactFrom, ReviewFrom, HexDigest, SummariesFrom,
      RespectsAddressShape, ValidExport;
    var i := ReviewFromBundle(bundles, r);
    BundleOf(output, bundles, exports, nowMs, digest, isIP, i);
    var b := bundles[i];
    var k :| 0 <= k < |b.reviews| && b.reviews[k] == r;
    ReviewHashFresh(r, k, b.roast, b.draft.createdMs, nowMs, digest, loadAt);
  }

  lemma GeneratedIdsGiven(output: SeedOutput, bundles: seq<Bundle>, exports: seq<ParsedExport>, nowMs: int,
                          digest: string -> string, isIP: string -> bool)
    requires GenerationHypotheses(output, bundles, exports, nowMs, digest, isIP)
    ensures output.cloudRoasts != [] && IdsGiven(output)
  {
    hide GenerationHypotheses, RoastOk, BundleFrom, PlainChars;
    RoastCountIs(output, bundles, exports, nowMs, digest) by {
      Hypotheses(output, bundles, exports, nowMs, digest, isIP);
    }
    forall r | r in output.cloudRoasts ensures r.id.Some? {
      var i :| 0 <= i < |output.cloudRoasts| && output.cloudRoasts[i] == r;
      BundleOf(output, bundles, exports, nowMs, digest, isIP, i);
    }
  }

  lemma Hypotheses(output: SeedOutput, bundles: seq<Bundle>, exports: seq<ParsedExport>, nowMs: int,
                   digest: string -> string, isIP: string -> bool)
    requires GenerationHypotheses(output, bundles, exports, nowMs, digest, isIP)
    ensures Generated(output, bundles, exports, nowMs, digest)
  {
  }

  lemma GeneratedGroupsNamed(output: SeedOutput, bundles: seq<Bundle>, exports: seq<ParsedExport>, nowMs: int,
                             digest: string -> string)
    requires Generated(output, bundles, exports, nowMs, digest)
    ensures GroupsNamed(output) && |output.referenceRoastSummaries| == GROUP_COUNT
  {
    hide Generated;
    SummaryAt(output, bundles, exports, nowMs, digest, 0);
    forall g | 0 <= g < GROUP_COUNT
      ensures output.referenceRoastSummaries[g].beanOrigin != "" && output.referenceRoastSummaries[g].roastLevel != ""
    {
      SummaryAt(output, bundles, exports, nowMs, digest, g);
      NamesNotEmpty(g % 4, g / 4);
    }
  }

  lemma NamesNotEmpty(i: nat, j: nat)
    requires i < 4 && j < 3
    ensures BEAN_ORIGINS[i] != "" && ROAST_LEVELS[j] != ""
  {
  }

  /** From its own generation time until ten days later, a generated artifact passes the loader's grammar. */
  lemma GeneratedArtifactAccepted(output: SeedOutput, bundles: seq<Bundle>, exports: seq<ParsedExport>, nowMs: int,
                                  digest: string -> string, isIP: string -> bool, target: string, loadAt: int)
    requires GenerationHypotheses(output, bundles, exports, nowMs, digest, isIP) && DrawsDistinct(output)
             && target in ALLOWED_TARGETS
    requires 1000 * nowMs <= loadAt < 1000 * (nowMs + LOAD_WINDOW_MS)
    ensures ArtifactAccepted(ArtifactJson(target, DispatchesOf(output)), target, loadAt)
  {
    hide Generated, ValidExport, HexDigest, RespectsAddressShape, ArtifactAccepted, HashFresh, ValidOutput,
      DrawsDistinct, GroupsNamed, IdsGiven, ArtifactJson, DispatchesOf;
    GeneratedOutputIsValid(output, bundles, exports, nowMs, digest, isIP);
    GeneratedIdsGiven(output, bundles, exports, nowMs, digest, isIP);
    GeneratedGroupsNamed(output, bundles, exports, nowMs, digest);
    forall r | r in output.tastingReviews ensures HashFresh(r, loadAt) {
      GeneratedHashesFresh(output, bundles, exports, nowMs, digest, isIP, loadAt, r);
    }
    DispatchAcceptedExactly(output, nowMs, isIP, target, loadAt);
  }

  // ----- What a load of valid output stores

  /** Every column of a stored row but a coalesced id holds what the typed output held. */
  ghost predicate StoredAs(rows: seq<Row>, from: nat, output: SeedOutput, table: SeedTable) {
    && |rows| == from + RowCount(output, table)
    && forall i, c :: 0 <= i < RowCount(output, table) && c in Columns(table) && (c == Id ==> !CoalescesId(table)) ==>
         At(rows[from + i], c) == CellOf(output, table, i, c)
  }

  lemma StoredOutput(output: SeedOutput, table: SeedTable, server: Server, k: nat, before: seq<Row>)
    ensures StoredAs(before + StoredRows(table, Records(output, table), server, k), |before|, output, table)
  {
    hide Columns, Name, Get, CellOf, StoredRows, At, Records;
    var records := Records(output, table);
    var stored := StoredRows(table, records, server, k);
    RecordCount(output, table);
    forall i, c | 0 <= i < RowCount(output, table) && c in Columns(table) && (c == Id ==> !CoalescesId(table))
      ensures At((before + stored)[|before| + i], c) == CellOf(output, table, i, c)
    {
      assert (before + stored)[|before| + i] == stored[i];
      StoredCellIs(table, records, server, k, i, c);
      RecordCell(output, table, i, c);
    }
  }

  /** The four row tables hold exactly their old rows followed by the typed output. */
  ghost predicate OutputStored(output: SeedOutput, t: Tables, t': Tables) {
    && t.roasts <= t'.roasts && StoredAs(t'.roasts, |t.roasts|, output, CloudRoasts)
    && t.telemetry <= t'.telemetry && StoredAs(t'.telemetry, |t.telemetry|, output, RoastTelemetry)
    && t.artifacts <= t'.artifacts && StoredAs(t'.artifacts, |t.artifacts|, output, RoastArtifacts)
    && t.reviews <= t'.reviews && StoredAs(t'.reviews, |t.reviews|, output, TastingReviews)
  }

  lemma LoadStoresOutput(output: SeedOutput, tables: TableRows, t: Tables, t': Tables, server: Server, k: nat)
    requires Complete(tables) && forall table :: table in TABLE_ORDER ==> tables[table] == Records(output, table)
    requires LoadShape(tables, t, t', server, k)
    ensures OutputStored(output, t, t')
  {
    hide StoredRows, StoredAs, Records, Fresh, CanEnter, UniqueGroups, GroupsLoaded, RowsAllowed, NewRevisions,
      BumpedBy, LockSeq;
    OrderMembers();
    var n, k1, k2 := |tables[CloudRoasts]|, |tables[RoastTelemetry]|, |tables[RoastArtifacts]|;
    StoredOutput(output, CloudRoasts, server, k + 7, t.roasts);
    StoredOutput(output, RoastTelemetry, server, k + 8 + n, t.telemetry);
    StoredOutput(output, RoastArtifacts, server, k + 8 + n + k1, t.artifacts);
    StoredOutput(output, TastingReviews, server, k + 8 + n + k1 + k2, t.reviews);
  }

  /** What makes the dispatched tables loadable, and how they follow from the output. */
  lemma ValidTablesLoadable(output: SeedOutput, validatedAt: int, isIP: string -> bool, target: string, t: Tables,
                            server: Server)
    requires ValidOutput(output, validatedAt, isIP) && IdsGiven(output) && target in ALLOWED_TARGETS
    requires CanEnter(t, server) && LockSeq(t.coordination) + 1 + |output.referenceRoastSummaries| <= MAX_WRITE_SEQ
    requires Fresh(t, IdentitiesOf(Records(output, CloudRoasts)))
    ensures GrammarOk(ArtifactJson(target, DispatchesOf(output)), target)
    ensures var tables := AcceptedTables(ArtifactJson(target, DispatchesOf(output)), target);
            && Complete(tables) && (forall table :: table in TABLE_ORDER ==> tables[table] == Records(output, table))
            && IdsPresent(tables[CloudRoasts]) && IdentitiesDistinct(tables[CloudRoasts]) && Loadable(tables, t, server)
  {
    hide ValidOutput, ArtifactJson, DispatchesOf, Fresh, CanEnter, LockSeq, Records, IdsGiven, RecordsAllowed,
      AcceptedTables, IdentitiesOf, IdsPresent, IdentitiesDistinct, GrammarOk;
    AcceptedRecords(output, target);
    var tables := AcceptedTables(ArtifactJson(target, DispatchesOf(output)), target);
    OrderMembers();
    Unique(output, validatedAt, isIP);
    ValidIdentitiesDistinct(output);
    GivenIdsPresent(output);
    forall table | table in TABLE_ORDER ensures RecordsAllowed(table, tables[table]) {
      ValidRecordsAllowed(output, validatedAt, isIP, table);
    }
    RecordCount(output, ReferenceRoastSummaries);
  }

  /** Valid output whose identities are unused goes through, cell by cell, and keeps the database invariant. */
  lemma ValidOutputLoads(output: SeedOutput, validatedAt: int, isIP: string -> bool, target: string, loadAt: int,
                         t: Tables, server: Server, k: nat)
    requires ValidOutput(output, validatedAt, isIP) && target in ALLOWED_TARGETS && server.database == target
    requires ArtifactAccepted(ArtifactJson(target, DispatchesOf(output)), target, loadAt)
    requires CanEnter(t, server) && LockSeq(t.coordination) + 1 + |output.referenceRoastSummaries| <= MAX_WRITE_SEQ
    requires Fresh(t, IdentitiesOf(Records(output, CloudRoasts)))
    ensures var result := SeedResult(ArtifactJson(target, DispatchesOf(output)), target, loadAt, t, false, server, k);
            && result.Some?
            && OutputStored(output, t, result.value)
            && (DatabaseInvariant(t) ==> DatabaseInvariant(result.value))
  {
    hide ValidOutput, ArtifactAccepted, ArtifactJson, DispatchesOf, LoadResult, LoadShape, OutputStored,
      DatabaseInvariant, Fresh, CanEnter, LockSeq, Records, IdsGiven, AcceptedTables, IdentitiesOf, IdsPresent,
      GroupsNamed, HashFresh, Loadable, IdentitiesDistinct, GrammarOk;
    DispatchAcceptedExactly(output, validatedAt, isIP, target, loadAt);
    ValidTablesLoadable(output, validatedAt, isIP, target, t, server);
    var tables := AcceptedTables(ArtifactJson(target, DispatchesOf(output)), target);
    LoadableSucceeds(tables, t, server, k + |PREAMBLE|);
    var t' := LoadResult(tables, t, server, k + |PREAMBLE|).value;
    LoadResultShape(tables, t, server, k + |PREAMBLE|);
    LoadStoresOutput(output, tables, t, t', server, k + |PREAMBLE|);
    if DatabaseInvariant(t) { LoadKeepsInvariant(tables, t, server, k + |PREAMBLE|); }
  }

  lemma Unique(output: SeedOutput, now: int, isIP: string -> bool)
    requires ValidOutput(output, now, isIP)
    ensures IdentitiesUnique(output)
  {
  }

  lemma GivenIdsPresent(output: SeedOutput)
    requires IdsGiven(output)
    ensures IdsPresent(Records(output, CloudRoasts))
  {
    hide Records, ValuesIn, Columns;
    RoastColumns();
    RecordValues(output, CloudRoasts, Id);
    assert forall i :: 0 <= i < |output.cloudRoasts| ==> output.cloudRoasts[i] in output.cloudRoasts;
  }

  /** The generated seed goes end to end, at any load time within ten days of its generation. */
  lemma GeneratedOutputLoads(output: SeedOutput, bundles: seq<Bundle>, exports: seq<ParsedExport>, nowMs: int,
                             digest: string -> string, isIP: string -> bool, target: string, loadAt: int,
                             t: Tables, server: Server, k: nat)
    requires GenerationHypotheses(output, bundles, exports, nowMs, digest, isIP) && DrawsDistinct(output)
    requires target in ALLOWED_TARGETS && server.database == target
    requires 1000 * nowMs <= loadAt < 1000 * (nowMs + LOAD_WINDOW_MS)
    requires CanEnter(t, server) && LockSeq(t.coordination) + 1 + GROUP_COUNT <= MAX_WRITE_SEQ
    requires Fresh(t, IdentitiesOf(Records(output, CloudRoasts)))
    ensures var result := SeedResult(ArtifactJson(target, DispatchesOf(output)), target, loadAt, t, false, server, k);
            && result.Some?
            && OutputStored(output, t, result.value)
            && (DatabaseInvariant(t) ==> DatabaseInvariant(result.value))
  {
    hide Generated, ValidExport, HexDigest, RespectsAddressShape, ArtifactAccepted, ValidOutput, DrawsDistinct,
      SeedResult, OutputStored, DatabaseInvariant, Fresh, CanEnter, LockSeq, Records, ArtifactJson, DispatchesOf,
      GroupsNamed;
    GeneratedOutputIsValid(output, bundles, exports, nowMs, digest, isIP);
    GeneratedGroupsNamed(output, bundles, exports, nowMs, digest);
    GeneratedArtifactAccepted(output, bundles, exports, nowMs, digest, isIP, target, loadAt);
    ValidOutputLoads(output, nowMs, isIP, target, loadAt, t, server, k);
  }
}

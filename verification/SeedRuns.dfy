/** Whole histories of load attempts, and the audit's row-range branches. */
module SeedRuns {
  import opened Wrappers
  import opened Sequences
  import opened JsonTrees
  import opened SeedTypes
  import opened SeededRandom
  import opened SeedRules
  import opened SeedRelations
  import opened SeedDispatch
  import opened SeedArtifact
  import opened SeedDatabase
  import opened SeedLoader
  import opened SeedLoadTheory
  import opened SeedLoadKeeps
  import opened SeedInvariant
  import opened SeedPipeline
  import opened SeedEndToEnd

  // ----- Histories

  /** One call of the loader; a failed one changed nothing, whatever its checks found. */
  datatype Attempt = Attempt(artifact: Json, target: string, now: int, firstStatement: nat, failed: bool)

  ghost function AfterAttempt(a: Attempt, t: Tables, server: Server): Tables {
    if a.failed then t else SeedResult(a.artifact, a.target, a.now, t, false, server, a.firstStatement).GetOr(t)
  }

  ghost function AfterAttempts(attempts: seq<Attempt>, t: Tables, server: Server): Tables {
    if attempts == [] then t
    else AfterAttempt(attempts[|attempts| - 1], AfterAttempts(attempts[..|attempts| - 1], t, server), server)
  }

  lemma AcceptedIdsPresent(artifact: Json, target: string, now: int)
    requires ArtifactAccepted(artifact, target, now)
    ensures Complete(AcceptedTables(artifact, target)) && IdsPresent(AcceptedTables(artifact, target)[CloudRoasts])
  {
    hide GrammarOk, TablesUpTo, ParentsOk, HashOk, GroupsOk;
  }

  lemma AttemptKeepsInvariant(a: Attempt, t: Tables, server: Server)
    requires DatabaseInvariant(t)
    ensures DatabaseInvariant(AfterAttempt(a, t, server))
  {
    hide ArtifactAccepted, LoadResult, DatabaseInvariant, IdentitiesDistinct, AcceptedTables, IdsPresent;
    if !a.failed && SeedResult(a.artifact, a.target, a.now, t, false, server, a.firstStatement).Some? {
      AcceptedGrammar(a.artifact, a.target, a.now);
      AcceptedIdsPresent(a.artifact, a.target, a.now);
      LoadKeepsInvariant(AcceptedTables(a.artifact, a.target), t, server, a.firstStatement + |PREAMBLE|);
    }
  }

  /** Whatever artifacts are loaded, in whatever order and with whatever failures, the database stays audit-clean. */
  lemma {:induction false} InvariantOverHistories(attempts: seq<Attempt>, t: Tables, server: Server)
    requires DatabaseInvariant(t)
    ensures DatabaseInvariant(AfterAttempts(attempts, t, server))
  {
    hide DatabaseInvariant, AfterAttempt;
    if attempts != [] {
      InvariantOverHistories(attempts[..|attempts| - 1], t, server);
      AttemptKeepsInvariant(attempts[|attempts| - 1], AfterAttempts(attempts[..|attempts| - 1], t, server), server);
    }
  }

  // ----- A run of loads on one connection

  datatype Request = Request(artifact: Json, target: string, now: int)

  /** The attempt that a call of the loader amounts to: a failed one changed nothing. */
  function AttemptOf(r: Request, firstStatement: nat, failed: bool): Attempt {
    Attempt(r.artifact, r.target, r.now, firstStatement, failed)
  }

  /** Some load of the artifact succeeds on these tables. */
  ghost predicate GoesThrough(a: Attempt, t: Tables, server: Server) {
    SeedResult(a.artifact, a.target, a.now, t, false, server, a.firstStatement).Some?
  }

  lemma ResultOutsideTransaction(r: Request, t: Tables, inTransaction: bool, server: Server, k: nat)
    requires SeedResult(r.artifact, r.target, r.now, t, inTransaction, server, k).Some?
    ensures !inTransaction
  {
    hide ArtifactAccepted, LoadResult, IdentitiesDistinct, AcceptedTables;
  }

  method LoadOne(connection: Connection, request: Request)
    returns (result: Result<map<SeedTable, nat>, LoadError>, ghost attempt: Attempt)
    requires connection.Valid()
    modifies connection
    ensures connection.Valid()
    ensures attempt == AttemptOf(request, old(connection.executed), result.Failure?)
    ensures result.Success? ==> GoesThrough(attempt, old(connection.committed), connection.server)
    ensures connection.committed == AfterAttempt(attempt, old(connection.committed), connection.server)
  {
    hide SeedResult, ArtifactAccepted, AcceptedTables, Counts, SeedLoader.Body, Disturbed;
    ghost var before, working, inside, k := connection.committed, connection.working, connection.inTransaction,
      connection.executed;
    ghost var writeSeq;
    result, writeSeq := LoadSeed(connection, request.artifact, request.target, request.now);
    attempt := AttemptOf(request, k, result.Failure?);
    if result.Success? {
      ResultOutsideTransaction(request, working, inside, connection.server, k);
    }
  }

  /** Loading a list of artifacts over one connection is a history of attempts, and keeps the database audit-clean. */
  method LoadAll(connection: Connection, requests: seq<Request>)
    returns (results: seq<Result<map<SeedTable, nat>, LoadError>>, ghost attempts: seq<Attempt>)
    requires connection.Valid() && DatabaseInvariant(connection.committed)
    modifies connection
    ensures connection.Valid() && DatabaseInvariant(connection.committed)
    ensures |results| == |attempts| == |requests|
    ensures forall i :: 0 <= i < |requests| ==>
              attempts[i] == AttemptOf(requests[i], attempts[i].firstStatement, results[i].Failure?)
    ensures forall i :: 0 <= i < |requests| && results[i].Success? ==>
              GoesThrough(attempts[i], AfterAttempts(attempts[..i], old(connection.committed), connection.server),
                          connection.server)
    ensures connection.committed == AfterAttempts(attempts, old(connection.committed), connection.server)
  {
    hide DatabaseInvariant, AfterAttempt, GoesThrough;
    results, attempts := [], [];
    for i := 0 to |requests|
      invariant connection.Valid() && |results| == |attempts| == i
      invariant forall k :: 0 <= k < i ==>
                  attempts[k] == AttemptOf(requests[k], attempts[k].firstStatement, results[k].Failure?)
      invariant forall k :: 0 <= k < i && results[k].Success? ==>
                  GoesThrough(attempts[k], AfterAttempts(attempts[..k], old(connection.committed), connection.server),
                              connection.server)
      invariant connection.committed == AfterAttempts(attempts, old(connection.committed), connection.server)
    {
      var result;
      ghost var attempt;
      result, attempt := LoadOne(connection, requests[i]);
      ghost var next := attempts + [attempt];
      assert next[..i] == attempts;
      assert forall k :: 0 <= k < i ==> next[..k] == attempts[..k];
      results, attempts := results + [result], next;
    }
    InvariantOverHistories(attempts, old(connection.committed), connection.server);
  }

  /** Once loaded, an identity is refused for good: any later artifact that reuses one does not go through. */
  lemma LoadedIdentityIsTaken(tables: TableRows, t: Tables, server: Server, k: nat, later: Tables, again: TableRows,
                              k': nat, id: Json)
    requires Complete(tables) && IdsPresent(tables[CloudRoasts]) && LoadResult(tables, t, server, k).Some?
    requires LoadResult(tables, t, server, k).value.roasts <= later.roasts
    requires Complete(again) && id in ValuesIn(tables[CloudRoasts], Id) && id in ValuesIn(again[CloudRoasts], Id)
    ensures LoadResult(again, later, server, k').None?
  {
    hide Run, CanEnter, UniqueGroups, GroupsLoaded, NewRevisions, BumpedBy, LockSeq, IdsConfirmed, At, StoredRows,
      ValuesIn, RowAllowed, Columns, ChildWrites, Inserts;
    var ids, rows := ValuesIn(tables[CloudRoasts], Id), LoadedRows(tables, CloudRoasts, server, k);
    LoadResultShape(tables, t, server, k);
    IdentityColumns();
    StoredColumn(tables[CloudRoasts], server, k + 7, Id);
    var i :| 0 <= i < |ids| && ids[i] == id;
    var row := rows[i];
    assert ColumnOf(rows, Id)[i] == id && rows[i] in rows;
    var after := LoadResult(tables, t, server, k).value;
    assert row in after.roasts;
    assert after.roasts == later.roasts[..|after.roasts|];
    var who := IdentitiesOf(again[CloudRoasts]);
    EnteredShape(later, who);
    assert RoastMatches(row, who.ids, who.keys, who.slugs);
  }

  // ----- Row ranges

  predicate Outside(cell: Json, low: int, high: int) {
    cell.JNum? && (cell.n < low as real || cell.n > high as real)
  }

  predicate RoastInRange(row: Row) {
    && !Outside(At(row, OperatorRating), 1, 5)
    && (At(row, Visibility).JStr? ==> At(row, Visibility).s in {"private", "unlisted", "public"})
  }

  const AUDITED_SLIDERS := {Aroma, Acidity, Sweetness, SeedTypes.Column.Body, Aftertaste}

  predicate ReviewInRange(row: Row) {
    !Outside(At(row, Score), 1, 5) && forall c :: c in AUDITED_SLIDERS ==> !Outside(At(row, c), 0, 100)
  }

  /** No audited row of the range kind. */
  ghost predicate RangesOk(t: Tables) {
    (forall row :: row in t.roasts ==> RoastInRange(row)) && (forall row :: row in t.reviews ==> ReviewInRange(row))
  }

  lemma RangeColumns()
    ensures OperatorRating in Columns(CloudRoasts) && Visibility in Columns(CloudRoasts)
    ensures Score in Columns(TastingReviews) && forall c :: c in AUDITED_SLIDERS ==> c in Columns(TastingReviews)
  {
    var roasts, reviews := Columns(CloudRoasts), Columns(TastingReviews);
    assert roasts[11] == OperatorRating && roasts[4] == Visibility;
    assert reviews[3] == Score && reviews[4] == Aroma && reviews[5] == Acidity && reviews[6] == Sweetness
           && reviews[7] == SeedTypes.Column.Body && reviews[8] == Aftertaste;
  }

  lemma ValidRoastInRange(r: CloudRoast, isIP: string -> bool)
    requires RoastOk(r, isIP)
    ensures !Outside(RoastCell(r, OperatorRating), 1, 5) && RoastCell(r, Visibility) == JStr(r.visibility)
    ensures r.visibility in {"private", "unlisted", "public"}
  {
    hide CleanVariant, NoRawIpCells, IsValidSlug, IsCloudRoastId;
  }

  lemma ValidReviewInRange(r: Review, now: int, isIP: string -> bool)
    requires ReviewOk(r, now, isIP)
    ensures !Outside(ReviewCell(r, Score), 1, 5)
    ensures forall c :: c in AUDITED_SLIDERS ==> !Outside(ReviewCell(r, c), 0, 100)
  {
    hide NoRawIpCells, RetentionOk, IsIpHash;
    assert SLIDERS[0] == Aroma && SLIDERS[1] == Acidity && SLIDERS[2] == Sweetness
           && SLIDERS[3] == SeedTypes.Column.Body && SLIDERS[4] == Aftertaste;
    forall c | c in AUDITED_SLIDERS ensures !Outside(ReviewCell(r, c), 0, 100) {
      assert c in SLIDERS && PercentOrNone(Slider(r, c));
    }
  }

  lemma StoredCell(rows: seq<Row>, from: nat, output: SeedOutput, table: SeedTable, i: nat, c: Column)
    requires StoredAs(rows, from, output, table) && i < RowCount(output, table) && c in Columns(table) && c != Id
    ensures At(rows[from + i], c) == CellOf(output, table, i, c)
  {
    hide Columns, At, CellOf;
  }

  lemma StoredRoastInRange(output: SeedOutput, isIP: string -> bool, rows: seq<Row>, from: nat, i: nat)
    requires StoredAs(rows, from, output, CloudRoasts) && i < |output.cloudRoasts|
             && RoastOk(output.cloudRoasts[i], isIP)
    ensures RoastInRange(rows[from + i])
  {
    hide RoastOk, Columns, At, Outside, RoastCell, StoredAs;
    RangeColumns();
    ValidRoastInRange(output.cloudRoasts[i], isIP);
    StoredCell(rows, from, output, CloudRoasts, i, OperatorRating);
    StoredCell(rows, from, output, CloudRoasts, i, Visibility);
  }

  lemma StoredReviewInRange(output: SeedOutput, now: int, isIP: string -> bool, rows: seq<Row>, from: nat, i: nat)
    requires StoredAs(rows, from, output, TastingReviews) && i < |output.tastingReviews|
             && ReviewOk(output.tastingReviews[i], now, isIP)
    ensures ReviewInRange(rows[from + i])
  {
    hide ReviewOk, Columns, At, Outside, ReviewCell;
    RangeColumns();
    ValidReviewInRange(output.tastingReviews[i], now, isIP);
    StoredCell(rows, from, output, TastingReviews, i, Score);
    forall c | c in AUDITED_SLIDERS ensures !Outside(At(rows[from + i], c), 0, 100) {
      StoredCell(rows, from, output, TastingReviews, i, c);
    }
  }

  /** Storing valid output adds no row that the range branches report. */
  lemma StoringKeepsRanges(output: SeedOutput, now: int, isIP: string -> bool, t: Tables, t': Tables)
    requires ValidOutput(output, now, isIP) && OutputStored(output, t, t') && RangesOk(t)
    ensures RangesOk(t')
  {
    hide RoastOk, TelemetryOk, ReviewOk, ArtifactOk, SummaryOk, RoastInRange, ReviewInRange, CellOf, Columns,
      IdentitiesUnique, ChildrenReferenceRoasts, Covered, AggregatesMatch;
    forall i | 0 <= i < |t'.roasts| ensures RoastInRange(t'.roasts[i]) {
      if i < |t.roasts| {
        assert t'.roasts[i] == t.roasts[i];
      } else {
        StoredRoastInRange(output, isIP, t'.roasts, |t.roasts|, i - |t.roasts|);
      }
    }
    forall i | 0 <= i < |t'.reviews| ensures ReviewInRange(t'.reviews[i]) {
      if i < |t.reviews| {
        assert t'.reviews[i] == t.reviews[i];
      } else {
        StoredReviewInRange(output, now, isIP, t'.reviews, |t.reviews|, i - |t.reviews|);
      }
    }
  }
}

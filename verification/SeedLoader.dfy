/** The transactional seed load: preconditions, one transaction, rollback on any failure. */
module SeedLoader {
  import opened Wrappers
  import opened Sequences
  import opened JsonTrees
  import opened SeedTypes
  import opened SeedDispatch
  import opened SeedArtifact
  import opened SeedDatabase

  datatype LoadError =
    | BadArtifact(error: ArtifactError) | RepeatedIdentity
    | UnknownTransactionState | CallerTransaction | WrongDatabase
    | BadSequence | NotEmpty | IdMismatch | Failed

  const REVISION_FIELDS := ["operator_rating", "operator_notes", "contributed_to_learning"]

  // ----- The statements of a load

  /** The identities of the seeded roasts. */
  datatype Identities = Identities(ids: seq<Json>, keys: seq<Json>, slugs: seq<Json>)

  function IdentitiesOf(roasts: seq<Record>): Identities {
    Identities(ValuesIn(roasts, Id), ValuesIn(roasts, IdempotencyKey), ValuesIn(roasts, PublicSlug))
  }

  function Checks(who: Identities): seq<Statement> {
    [CountRoasts(who.ids, who.keys, who.slugs), CountTombstones(who.ids, who.keys, who.slugs), CountRevisions(who.ids),
     CountChildren(RoastTelemetry, who.ids), CountChildren(RoastArtifacts, who.ids),
     CountChildren(TastingReviews, who.ids)]
  }

  function Inserts(table: SeedTable, rows: seq<Record>): seq<Statement> {
    Map((row: Record) => Insert(table, Params(row, table)), rows)
  }

  function RevisionsFor(id: Json, writeSeq: int): seq<Statement> {
    Map((field: string) => InsertRevision(id, field, writeSeq), REVISION_FIELDS)
  }

  function RevisionInserts(ids: seq<Json>, writeSeq: int): seq<Statement> {
    if ids == [] then [] else RevisionInserts(ids[..|ids| - 1], writeSeq) + RevisionsFor(ids[|ids| - 1], writeSeq)
  }

  function Merges(summaries: seq<Record>): seq<Statement> {
    Map((row: Record) => MergeSummary(Params(row, ReferenceRoastSummaries)), summaries)
  }

  function Recomputes(summaries: seq<Record>): seq<Statement> {
    Map((row: Record) => Recompute(Get(row, Name(BeanOrigin)), Get(row, Name(RoastLevel))), summaries)
  }

  /** Everything after the identities are confirmed. */
  function ChildWrites(tables: TableRows, writeSeq: int): seq<Statement>
    requires Complete(tables)
  {
    Inserts(RoastTelemetry, tables[RoastTelemetry]) + Inserts(RoastArtifacts, tables[RoastArtifacts])
    + Inserts(TastingReviews, tables[TastingReviews]) + RevisionInserts(ValuesIn(tables[CloudRoasts], Id), writeSeq)
    + Merges(tables[ReferenceRoastSummaries]) + Recomputes(tables[ReferenceRoastSummaries])
  }

  /** The writes of a load, in statement order; the identity check sits between the roasts and the rest. */
  function Writes(tables: TableRows, writeSeq: int): seq<Statement>
    requires Complete(tables)
  {
    Inserts(CloudRoasts, tables[CloudRoasts]) + [SelectIdentities(ValuesIn(tables[CloudRoasts], IdempotencyKey))]
    + ChildWrites(tables, writeSeq)
  }

  const PREAMBLE := [CurrentTransaction, SecondaryRolesNone, CurrentDatabase, Begin]

  predicate InsideTransaction(s: Statement) {
    !s.Begin? && !s.Commit? && !s.Rollback?
  }

  // ----- What the checks establish

  /** None of the seeded identities occurs anywhere yet. */
  ghost predicate Fresh(t: Tables, who: Identities) {
    && (forall row :: row in t.roasts ==> !RoastMatches(row, who.ids, who.keys, who.slugs))
    && (forall d :: d in t.tombstones ==> !TombstoneMatches(d, who.ids, who.keys, who.slugs))
    && (forall r :: r in t.revisions ==> !In(r.cloudRoastId, who.ids))
    && (forall row :: row in t.telemetry ==> !In(At(row, RoastId), who.ids))
    && (forall row :: row in t.artifacts ==> !In(At(row, RoastId), who.ids))
    && (forall row :: row in t.reviews ==> !In(At(row, RoastId), who.ids))
  }

  predicate ZeroCount(reply: Reply) {
    reply.OneRow? && |reply.cells| == 1 && reply.cells[0] == IntCell(0)
  }

  /** The id that a dictionary of key and id pairs ends up with for a key. */
  function LastId(pairs: seq<(Json, Json)>, key: Json): Json {
    if pairs == [] then JNull
    else if pairs[|pairs| - 1].0 == key then pairs[|pairs| - 1].1
    else LastId(pairs[..|pairs| - 1], key)
  }

  predicate IdsConfirmed(pairs: seq<(Json, Json)>, roasts: seq<Record>) {
    forall i :: 0 <= i < |roasts| ==> LastId(pairs, Get(roasts[i], Name(IdempotencyKey))) == Get(roasts[i], Name(Id))
  }

  /** Some executed statement failed or answered unusably. */
  ghost predicate Disturbed(connection: Connection, low: nat, high: nat) {
    exists k :: low <= k < high && (connection.fails(k) || connection.garbles(k))
  }

  method ExecuteAll(connection: Connection, statements: seq<Statement>) returns (ok: bool)
    requires connection.Valid() && connection.inTransaction
    requires forall i :: 0 <= i < |statements| ==> InsideTransaction(statements[i])
    modifies connection
    ensures connection.Valid() && connection.inTransaction && connection.committed == old(connection.committed)
    ensures old(connection.executed) <= connection.executed <= old(connection.executed) + |statements|
    ensures ok ==>
              && Run(statements, old(connection.working), connection.server, old(connection.executed))
                 == Some(connection.working)
              && connection.executed == old(connection.executed) + |statements|
              && connection.log == old(connection.log) + statements
    ensures !ok ==>
              Disturbed(connection, old(connection.executed), connection.executed)
              || Run(statements, old(connection.working), connection.server, old(connection.executed)).None?
  {
    hide Effect;
    ghost var before, first := connection.working, connection.executed;
    for i := 0 to |statements|
      invariant connection.Valid() && connection.inTransaction && connection.committed == old(connection.committed)
      invariant connection.executed == first + i && connection.log == old(connection.log) + statements[..i]
      invariant Run(statements[..i], before, connection.server, first) == Some(connection.working)
    {
      var reply := connection.Execute(statements[i]);
      RunStep(statements, i, before, connection.server, first);
      if reply.Failure? { return false; }
      assert statements[..i + 1] == statements[..i] + [statements[i]];
    }
    assert statements[..|statements|] == statements;
    ok := true;
  }

  lemma RunStep(statements: seq<Statement>, i: nat, t: Tables, server: Server, k: nat)
    requires i < |statements| && Run(statements[..i], t, server, k).Some?
    ensures var here := Run(statements[..i], t, server, k).value;
            match Effect(statements[i], here, server, k + i)
            case None => Run(statements, t, server, k).None?
            case Some((t', reply)) => Run(statements[..i + 1], t, server, k) == Some(t')
  {
    hide Effect;
    var here := Run(statements[..i], t, server, k).value;
    assert statements == statements[..i] + statements[i..];
    RunConcat(statements[..i], statements[i..], t, server, k);
    assert statements[..i + 1] == statements[..i] + [statements[i]];
    RunConcat(statements[..i], [statements[i]], t, server, k);
  }

  method RequireZero(connection: Connection, s: Statement) returns (ok: bool)
    requires connection.Valid() && connection.inTransaction && IsCount(s)
    modifies connection
    ensures connection.Valid() && connection.inTransaction && connection.committed == old(connection.committed)
    ensures connection.working == old(connection.working) && connection.executed == old(connection.executed) + 1
    ensures connection.log == old(connection.log) + [s]
    ensures ok ==> CountOf(s, connection.working) == 0
    ensures !ok ==>
            Disturbed(connection, old(connection.executed), connection.executed) || CountOf(s, connection.working) != 0
  {
    hide CountOf;
    var reply := connection.Execute(s);
    ok := reply.Success? && ZeroCount(reply.value);
  }

  lemma NothingFiltered<T(!new)>(keep: T -> bool, s: seq<T>)
    ensures |Filter(keep, s)| == 0 <==> forall x :: x in s ==> !keep(x)
  {
    if |Filter(keep, s)| > 0 {
      assert Filter(keep, s)[0] in Filter(keep, s);
    }
  }

  lemma NoRoastCounted(t: Tables, ids: seq<Json>, keys: seq<Json>, slugs: seq<Json>)
    ensures CountOf(CountRoasts(ids, keys, slugs), t) == 0
            <==> forall row :: row in t.roasts ==> !RoastMatches(row, ids, keys, slugs)
  {
    NothingFiltered((row: Row) => RoastMatches(row, ids, keys, slugs), t.roasts);
  }

  lemma NoTombstoneCounted(t: Tables, ids: seq<Json>, keys: seq<Json>, slugs: seq<Json>)
    ensures CountOf(CountTombstones(ids, keys, slugs), t) == 0
            <==> forall d :: d in t.tombstones ==> !TombstoneMatches(d, ids, keys, slugs)
  {
    NothingFiltered((d: Tombstone) => TombstoneMatches(d, ids, keys, slugs), t.tombstones);
  }

  lemma NoRevisionCounted(t: Tables, ids: seq<Json>)
    ensures CountOf(CountRevisions(ids), t) == 0 <==> forall r :: r in t.revisions ==> !In(r.cloudRoastId, ids)
  {
    NothingFiltered((r: Revision) => In(r.cloudRoastId, ids), t.revisions);
  }

  lemma NoChildCounted(t: Tables, table: SeedTable, ids: seq<Json>)
    ensures CountOf(CountChildren(table, ids), t) == 0
            <==> forall row :: row in ChildRows(t, table) ==> !In(At(row, RoastId), ids)
  {
    NothingFiltered((row: Row) => In(At(row, RoastId), ids), ChildRows(t, table));
  }

  lemma CountsAreFresh(t: Tables, who: Identities)
    ensures Fresh(t, who) <==> forall i :: 0 <= i < |Checks(who)| ==> CountOf(Checks(who)[i], t) == 0
  {
    hide CountOf, RoastMatches, TombstoneMatches, In, At;
    NoRoastCounted(t, who.ids, who.keys, who.slugs);
    NoTombstoneCounted(t, who.ids, who.keys, who.slugs);
    NoRevisionCounted(t, who.ids);
    NoChildCounted(t, RoastTelemetry, who.ids);
    NoChildCounted(t, RoastArtifacts, who.ids);
    NoChildCounted(t, TastingReviews, who.ids);
    var checks := Checks(who);
    assert (forall i :: 0 <= i < 6 ==> CountOf(checks[i], t) == 0)
      <==> CountOf(checks[0], t) == 0 && CountOf(checks[1], t) == 0 && CountOf(checks[2], t) == 0
           && CountOf(checks[3], t) == 0 && CountOf(checks[4], t) == 0 && CountOf(checks[5], t) == 0;
  }

  method RunChecks(connection: Connection, who: Identities) returns (ok: bool)
    requires connection.Valid() && connection.inTransaction
    modifies connection
    ensures connection.Valid() && connection.inTransaction && connection.committed == old(connection.committed)
    ensures connection.working == old(connection.working)
    ensures old(connection.executed) <= connection.executed <= old(connection.executed) + 6
    ensures ok ==> Fresh(connection.working, who) && connection.executed == old(connection.executed) + 6
    ensures ok ==> connection.log == old(connection.log) + Checks(who)
    ensures !ok ==>
            Disturbed(connection, old(connection.executed), connection.executed) || !Fresh(connection.working, who)
  {
    hide CountOf, Fresh;
    CountsAreFresh(connection.working, who);
    var checks := Checks(who);
    for i := 0 to |checks|
      invariant connection.Valid() && connection.inTransaction && connection.committed == old(connection.committed)
      invariant connection.working == old(connection.working) && connection.executed == old(connection.executed) + i
      invariant connection.log == old(connection.log) + checks[..i]
      invariant forall k :: 0 <= k < i ==> CountOf(checks[k], connection.working) == 0
    {
      var zero := RequireZero(connection, checks[i]);
      if !zero { return false; }
      assert checks[..i + 1] == checks[..i] + [checks[i]];
    }
    assert checks[..|checks|] == checks;
    ok := true;
  }

  // ----- The transaction

  function Entered(t: Tables): Tables {
    t.(coordination := Bumped(t.coordination))
  }

  function WriteSeqAfter(t: Tables): int {
    LockSeq(t.coordination) + 1
  }

  /** The tables a load of `tables` ends in, or None when one of its checks or statements refuses. */
  ghost function LoadResult(tables: TableRows, t: Tables, server: Server, k: nat): Option<Tables>
    requires Complete(tables)
  {
    var roasts := tables[CloudRoasts];
    var who := IdentitiesOf(roasts);
    if !CanEnter(t, server) || WriteSeqAfter(t) < 0 || !Fresh(Entered(t), who) then None else
      match Run(Inserts(CloudRoasts, roasts), Entered(t), server, k + 7)
      case None => None
      case Some(t2) =>
        if !IdsConfirmed(IdentityPairs(t2, who.keys), roasts) then None
        else Run(ChildWrites(tables, WriteSeqAfter(t)), t2, server, k + 8 + |roasts|)
  }

  function IdentityPairs(t: Tables, keys: seq<Json>): seq<(Json, Json)> {
    Map((row: Row) => (At(row, IdempotencyKey), At(row, Id)),
        Filter((row: Row) => In(At(row, IdempotencyKey), keys), t.roasts))
  }

  method EnterPlane(connection: Connection) returns (writeSeq: Option<int>)
    requires connection.Valid() && connection.inTransaction
    modifies connection
    ensures connection.Valid() && connection.inTransaction && connection.committed == old(connection.committed)
    ensures connection.executed == old(connection.executed) + 1 && connection.log == old(connection.log) + [Enter]
    ensures writeSeq.Some? ==>
              && CanEnter(old(connection.working), connection.server)
              && connection.working == Entered(old(connection.working))
              && writeSeq.value == WriteSeqAfter(old(connection.working)) && writeSeq.value >= 0
    ensures writeSeq.None? ==>
              || Disturbed(connection, old(connection.executed), connection.executed)
              || !CanEnter(old(connection.working), connection.server) || WriteSeqAfter(old(connection.working)) < 0
  {
    hide CanEnter, Bumped, LockSeq;
    var reply := connection.Execute(Enter);
    if reply.Failure? { return None; }
    var cells := if reply.value.OneRow? then reply.value.cells else [];
    if |cells| != 1 || !cells[0].IntCell? || cells[0].n < 0 { return None; }
    writeSeq := Some(cells[0].n);
  }

  method ConfirmIds(connection: Connection, roasts: seq<Record>) returns (ok: bool)
    requires connection.Valid() && connection.inTransaction
    modifies connection
    ensures connection.Valid() && connection.inTransaction && connection.committed == old(connection.committed)
    ensures connection.working == old(connection.working) && connection.executed == old(connection.executed) + 1
    ensures connection.log == old(connection.log) + [SelectIdentities(ValuesIn(roasts, IdempotencyKey))]
    ensures ok ==> IdsConfirmed(IdentityPairs(connection.working, ValuesIn(roasts, IdempotencyKey)), roasts)
    ensures !ok ==>
              || Disturbed(connection, old(connection.executed), connection.executed)
              || !IdsConfirmed(IdentityPairs(connection.working, ValuesIn(roasts, IdempotencyKey)), roasts)
  {
    hide IdsConfirmed, In, At, ValuesIn;
    var keys := ValuesIn(roasts, IdempotencyKey);
    SelectEffect(keys, connection.working, connection.server, connection.executed);
    var reply := connection.Execute(SelectIdentities(keys));
    ok := reply.Success? && reply.value.Pairs? && IdsConfirmed(reply.value.pairs, roasts);
  }

  lemma SelectEffect(keys: seq<Json>, t: Tables, server: Server, k: nat)
    ensures Effect(SelectIdentities(keys), t, server, k) == Some((t, Pairs(IdentityPairs(t, keys))))
  {
    hide In, At;
  }

  lemma InsideWrites(tables: TableRows, writeSeq: int)
    requires Complete(tables)
    ensures forall i :: 0 <= i < |ChildWrites(tables, writeSeq)| ==> InsideTransaction(ChildWrites(tables, writeSeq)[i])
    ensures forall i :: 0 <= i < |Inserts(CloudRoasts, tables[CloudRoasts])| ==>
            InsideTransaction(Inserts(CloudRoasts, tables[CloudRoasts])[i])
  {
    hide Params, ValuesIn, Name;
    InsideRevisions(ValuesIn(tables[CloudRoasts], Id), writeSeq);
  }

  lemma {:induction false} InsideRevisions(ids: seq<Json>, writeSeq: int)
    ensures forall i :: 0 <= i < |RevisionInserts(ids, writeSeq)| ==>
            InsideTransaction(RevisionInserts(ids, writeSeq)[i])
  {
    if ids != [] { InsideRevisions(ids[..|ids| - 1], writeSeq); }
  }

  /** Everything between BEGIN and COMMIT. */
  method RunTransaction(connection: Connection, tables: TableRows)
    returns (error: Option<LoadError>, ghost writeSeq: int)
    requires connection.Valid() && connection.inTransaction && Complete(tables)
    modifies connection
    ensures connection.Valid() && connection.executed >= old(connection.executed)
    ensures error.Some? ==> connection.inTransaction && connection.committed == old(connection.committed)
    ensures error.Some? ==>
              || Disturbed(connection, old(connection.executed), connection.executed)
              || LoadResult(tables, old(connection.working), connection.server, old(connection.executed)).None?
    ensures error.None? ==> !connection.inTransaction
    ensures error.None? ==>
              LoadResult(tables, old(connection.working), connection.server, old(connection.executed))
                == Some(connection.committed)
    ensures error.None? ==>
              && writeSeq == WriteSeqAfter(old(connection.working))
              && connection.log == old(connection.log) + [Enter] + Checks(IdentitiesOf(tables[CloudRoasts]))
                                   + Writes(tables, writeSeq) + [Commit]
  {
    hide CanEnter, Fresh, Run, IdsConfirmed, IdentityPairs, Effect, Inserts, ChildWrites, Checks, Disturbed,
      InsideTransaction, Entered, WriteSeqAfter;
    ghost var k, t := connection.executed, connection.working;
    var roasts := tables[CloudRoasts];
    writeSeq := 0;
    var entered := EnterPlane(connection);
    if entered.None? { DisturbedWithin(connection, k, k + 1, k); return Some(BadSequence), writeSeq; }
    writeSeq := entered.value;
    var clear := RunChecks(connection, IdentitiesOf(roasts));
    DisturbedWithin(connection, k + 1, connection.executed, k);
    if !clear { return Some(NotEmpty), writeSeq; }
    InsideWrites(tables, entered.value);
    InsertCount(roasts);
    var inserted := ExecuteAll(connection, Inserts(CloudRoasts, roasts));
    DisturbedWithin(connection, k + 7, connection.executed, k);
    if !inserted { return Some(Failed), writeSeq; }
    var confirmed := ConfirmIds(connection, roasts);
    DisturbedWithin(connection, k + 7 + |roasts|, connection.executed, k);
    if !confirmed { return Some(IdMismatch), writeSeq; }
    ghost var before := connection.executed;
    var written := ExecuteAll(connection, ChildWrites(tables, entered.value));
    DisturbedWithin(connection, before, connection.executed, k);
    if !written { return Some(Failed), writeSeq; }
    ghost var last := connection.executed;
    CommitEffect(connection.working, connection.server, last);
    var committed := connection.Execute(Commit);
    CommitDisturbed(connection, last, k);
    if committed.Failure? { return Some(Failed), writeSeq; }
    error := None;
  }

  lemma InsertCount(roasts: seq<Record>)
    ensures |Inserts(CloudRoasts, roasts)| == |roasts|
  {
  }

  lemma CommitEffect(t: Tables, server: Server, k: nat)
    ensures Effect(Commit, t, server, k) == Some((t, NoRow))
  {
  }

  lemma CommitDisturbed(connection: Connection, last: nat, k: nat)
    requires k <= last
    ensures connection.fails(last) ==> Disturbed(connection, k, last + 1)
  {
  }

  lemma DisturbedWithin(connection: Connection, low: nat, high: nat, k: nat)
    requires k <= low
    ensures Disturbed(connection, low, high) ==> Disturbed(connection, k, high)
  {
  }

  // ----- The load

  predicate IdentitiesDistinct(roasts: seq<Record>) {
    Distinct(ValuesIn(roasts, Id)) && Distinct(ValuesIn(roasts, IdempotencyKey))
    && Distinct(ValuesIn(roasts, PublicSlug))
  }

  function AcceptedTables(artifact: Json, target: string): TableRows
    requires GrammarOk(artifact, target)
  {
    TablesUpTo(artifact, target, |TABLE_ORDER|)
  }

  /** What an accepted, loadable artifact turns the tables into; None when the load is refused. */
  ghost function SeedResult(artifact: Json, target: string, now: int, t: Tables, inTransaction: bool, server: Server,
                            k: nat): Option<Tables>
  {
    if !ArtifactAccepted(artifact, target, now) || inTransaction || server.database != target then None else
      var tables := AcceptedTables(artifact, target);
      if !IdentitiesDistinct(tables[CloudRoasts]) then None else LoadResult(tables, t, server, k + |PREAMBLE|)
  }

  function Counts(tables: TableRows): map<SeedTable, nat> {
    map table | table in tables :: |tables[table]|
  }

  /** Reads the single cell of a probe; None when the answer has another shape. */
  function SingleCell(reply: Result<Reply, StatementError>): Option<Cell> {
    if reply.Success? && reply.value.OneRow? && |reply.value.cells| == 1 then Some(reply.value.cells[0]) else None
  }

  /** The session is exactly as it was, or the ROLLBACK statement itself failed. */
  ghost predicate SessionRestored(connection: Connection, working: Tables, inTransaction: bool)
    reads connection
  {
    || (connection.working == working && connection.inTransaction == inTransaction)
    || (connection.log != [] && connection.log[|connection.log| - 1] == Rollback
        && connection.executed > 0 && connection.fails(connection.executed - 1))
  }

  /** Probes and session settings up to and including BEGIN. */
  method Prepare(connection: Connection, target: string) returns (error: Option<LoadError>)
    requires connection.Valid()
    modifies connection
    ensures connection.Valid() && connection.committed == old(connection.committed)
            && connection.working == old(connection.working)
    ensures connection.executed >= old(connection.executed)
    ensures error.Some? ==> connection.inTransaction == old(connection.inTransaction)
    ensures error.Some? ==>
              || Disturbed(connection, old(connection.executed), connection.executed)
              || old(connection.inTransaction) || connection.server.database != target
    ensures error.None? ==>
              && !old(connection.inTransaction) && connection.server.database == target && connection.inTransaction
              && connection.executed == old(connection.executed) + |PREAMBLE|
              && connection.log == old(connection.log) + PREAMBLE
  {
    ghost var k := connection.executed;
    var probe := connection.Execute(CurrentTransaction);
    var state := SingleCell(probe);
    if state.None? { return Some(UnknownTransactionState); }
    if state.value != NullCell { return Some(CallerTransaction); }
    var roles := connection.Execute(SecondaryRolesNone);
    if roles.Failure? { assert connection.fails(k + 1); return Some(Failed); }
    var database := connection.Execute(CurrentDatabase);
    if SingleCell(database) != Some(TextCell(target)) {
      assert connection.fails(k + 2) || connection.garbles(k + 2) || connection.server.database != target;
      return Some(WrongDatabase);
    }
    var begun := connection.Execute(Begin);
    if begun.Failure? { assert connection.fails(k + 3); return Some(Failed); }
    error := None;
  }

  /** The statements from entering the write plane to COMMIT. */
  function Body(tables: TableRows, writeSeq: int): seq<Statement>
    requires Complete(tables)
  {
    [Enter] + Checks(IdentitiesOf(tables[CloudRoasts])) + Writes(tables, writeSeq) + [Commit]
  }

  /** The transaction, and ROLLBACK when anything in it fails. */
  method RunOrRollback(connection: Connection, tables: TableRows)
    returns (error: Option<LoadError>, ghost writeSeq: int)
    requires connection.Valid() && connection.inTransaction && connection.working == connection.committed
             && Complete(tables)
    modifies connection
    ensures connection.Valid() && connection.executed >= old(connection.executed)
    ensures error.Some? ==> connection.committed == old(connection.committed)
    ensures error.Some? ==> SessionRestored(connection, old(connection.working), false)
    ensures error.Some? ==>
              || Disturbed(connection, old(connection.executed), connection.executed)
              || LoadResult(tables, old(connection.working), connection.server, old(connection.executed)).None?
    ensures error.None? ==>
              && !connection.inTransaction && writeSeq == WriteSeqAfter(old(connection.working))
              && connection.log == old(connection.log) + Body(tables, writeSeq)
              && LoadResult(tables, old(connection.working), connection.server, old(connection.executed))
                 == Some(connection.committed)
  {
    hide LoadResult, Writes, Checks, Effect, Disturbed;
    ghost var k := connection.executed;
    error, writeSeq := RunTransaction(connection, tables);
    if error.Some? {
      ghost var end := connection.executed;
      RollbackEffect(connection.working, connection.server, end);
      var rolledBack := connection.Execute(Rollback);
      DisturbedUpTo(connection, k, end, connection.executed);
    }
  }

  /**
   * The load is all or nothing, and says exactly when it succeeds.
   * `now` is in microseconds; every executed statement may fail or answer unusably.
   */
  method LoadSeed(connection: Connection, artifact: Json, target: string, now: int)
    returns (result: Result<map<SeedTable, nat>, LoadError>, ghost writeSeq: int)
    requires connection.Valid()
    modifies connection
    ensures connection.Valid()
    ensures result.Failure? ==> connection.committed == old(connection.committed)
    ensures result.Failure? ==> SessionRestored(connection, old(connection.working), old(connection.inTransaction))
    ensures result.Failure? ==>
              || Disturbed(connection, old(connection.executed), connection.executed)
              || SeedResult(artifact, target, now, old(connection.working), old(connection.inTransaction),
                            connection.server, old(connection.executed)).None?
    ensures result.Success? ==>
              && !connection.inTransaction
              && SeedResult(artifact, target, now, old(connection.working), old(connection.inTransaction),
                            connection.server, old(connection.executed))
                 == Some(connection.committed)
              && ArtifactAccepted(artifact, target, now)
              && result.value == Counts(AcceptedTables(artifact, target))
              && writeSeq == WriteSeqAfter(old(connection.working))
              && connection.log == old(connection.log) + (PREAMBLE + Body(AcceptedTables(artifact, target), writeSeq))
  {
    hide ArtifactAccepted, LoadResult, Body, IdentitiesDistinct, Effect, Disturbed, SeedResult, AcceptedTables, Counts;
    ghost var k := connection.executed;
    writeSeq := 0;
    ResultCases(artifact, target, now, connection.working, connection.inTransaction, connection.server, k);
    var validated := ValidateArtifact(artifact, target, now);
    if validated.Failure? { return Failure(BadArtifact(validated.error)), writeSeq; }
    var tables := validated.value;
    AcceptedGrammar(artifact, target, now);
    AcceptedIs(artifact, target);
    if !IdentitiesDistinct(tables[CloudRoasts]) { return Failure(RepeatedIdentity), writeSeq; }
    var refused := Prepare(connection, target);
    if refused.Some? { return Failure(refused.value), writeSeq; }
    var error;
    error, writeSeq := RunOrRollback(connection, tables);
    DisturbedWithin(connection, k + |PREAMBLE|, connection.executed, k);
    if error.Some? { return Failure(error.value), writeSeq; }
    result := Success(Counts(tables));
  }

  lemma AcceptedIs(artifact: Json, target: string)
    requires GrammarOk(artifact, target)
    ensures AcceptedTables(artifact, target) == TablesUpTo(artifact, target, |TABLE_ORDER|)
            && Complete(AcceptedTables(artifact, target))
  {
    hide GrammarOk;
    TablesComplete(artifact, target, |TABLE_ORDER|);
  }

  lemma ResultCases(artifact: Json, target: string, now: int, t: Tables, inTransaction: bool, server: Server, k: nat)
    ensures !ArtifactAccepted(artifact, target, now) || inTransaction || server.database != target ==>
              SeedResult(artifact, target, now, t, inTransaction, server, k).None?
    ensures ArtifactAccepted(artifact, target, now) ==>
              && GrammarOk(artifact, target) && Complete(AcceptedTables(artifact, target))
              && var tables := AcceptedTables(artifact, target);
                 && (!IdentitiesDistinct(tables[CloudRoasts]) ==>
                     SeedResult(artifact, target, now, t, inTransaction, server, k).None?)
                 && (!inTransaction && server.database == target && IdentitiesDistinct(tables[CloudRoasts]) ==>
                       SeedResult(artifact, target, now, t, inTransaction, server, k)
                         == LoadResult(tables, t, server, k + |PREAMBLE|))
  {
    hide GrammarOk, LoadResult, RowsOk, TablesUpTo, IdentitiesDistinct;
  }

  lemma AcceptedGrammar(artifact: Json, target: string, now: int)
    requires ArtifactAccepted(artifact, target, now)
    ensures GrammarOk(artifact, target)
  {
  }

  lemma RollbackEffect(t: Tables, server: Server, k: nat)
    ensures Effect(Rollback, t, server, k) == Some((t, NoRow))
  {
  }

  lemma DisturbedUpTo(connection: Connection, low: nat, high: nat, higher: nat)
    requires high <= higher
    ensures Disturbed(connection, low, high) ==> Disturbed(connection, low, higher)
  {
  }
}

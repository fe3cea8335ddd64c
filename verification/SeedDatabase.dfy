/** The database that the seed loader talks to: tables, statements and one transactional connection. */
module SeedDatabase {
  import opened Wrappers
  import opened Sequences
  import opened JsonTrees
  import opened SeedTypes
  import opened SeedDispatch

  type Row = map<Column, Json>

  /** A deleted roast's identities; they may never be used again. */
  datatype Tombstone = Tombstone(cloudRoastId: Json, idempotencyKey: Json, publicSlug: Json,
                                 deletionWriteSeq: Option<int>)

  /** The accepted revision of one operator-editable field of one roast. */
  datatype Revision = Revision(cloudRoastId: Json, fieldName: string, acceptedRevision: int, acceptedWriteSeq: int)

  datatype Lock = Lock(lockName: string, writeSeq: int)

  datatype Tables = Tables(
    roasts: seq<Row>, telemetry: seq<Row>, artifacts: seq<Row>, reviews: seq<Row>, summaries: seq<Row>,
    tombstones: seq<Tombstone>, revisions: seq<Revision>, coordination: seq<Lock>)

  // ----- Bound parameters

  /** A bound value as it is, or serialised for PARSE_JSON. */
  datatype Param = Plain(j: Json) | Serialised(j: Json)

  predicate IsVariant(c: Column) {
    c == Summary || c == Raw || c == KeyPatterns
  }

  function Variant(j: Json): Param {
    if j == JNull then Plain(JNull) else Serialised(j)
  }

  /** The parameters bound for a record, in column order. */
  function Params(record: Record, table: SeedTable): seq<Param> {
    Map((c: Column) => ParamOf(record, c), Columns(table))
  }

  function ParamOf(record: Record, c: Column): Param {
    if IsVariant(c) then Variant(Get(record, Name(c))) else Plain(Get(record, Name(c)))
  }

  /** What a parameter stores in a column; PARSE_JSON reads serialised text and passes null through. */
  function StoredCell(p: Param, variant: bool): Option<Json> {
    match p
    case Serialised(j) => if variant then Some(j) else None
    case Plain(j) => if variant && j != JNull then None else Some(j)
  }

  function BindUpTo(table: SeedTable, params: seq<Param>, n: nat): Option<Row>
    requires n <= |params| == |Columns(table)|
  {
    if n == 0 then Some(map[]) else
      var c := Columns(table)[n - 1];
      var row := BindUpTo(table, params, n - 1);
      var cell := StoredCell(params[n - 1], IsVariant(c));
      if row.Some? && cell.Some? then Some(row.value[c := cell.value]) else None
  }

  function NotNullColumns(table: SeedTable): set<Column> {
    match table
    case CloudRoasts =>
      {Id, IdempotencyKey, PublicSlug, Visibility, Summary, ContributedToLearning, CreatedAt, UpdatedAt}
    case RoastTelemetry => {RoastId, ElapsedS}
    case RoastArtifacts => {Id, RoastId, Kind, StagePath, CreatedAt}
    case TastingReviews => {Id, RoastId, Score, CreatedAt}
    case ReferenceRoastSummaries => {Id, BeanOrigin, RoastLevel, RoastCount, ReviewCount, UpdatedAt}
  }

  predicate RowAllowed(table: SeedTable, row: Row) {
    forall c :: c in NotNullColumns(table) ==> c in row && row[c] != JNull
  }

  /** Every table but roasts and telemetry coalesces a missing id to a fresh UUID. */
  predicate CoalescesId(table: SeedTable) {
    table == RoastArtifacts || table == TastingReviews || table == ReferenceRoastSummaries
  }

  function WithId(table: SeedTable, row: Row, uuid: string): Row {
    if CoalescesId(table) && Id in row && row[Id] == JNull then row[Id := JStr(uuid)] else row
  }

  /** The row an INSERT stores, or None when a parameter or a NOT NULL column is refused. */
  function InsertedRow(table: SeedTable, params: seq<Param>, uuid: string): Option<Row> {
    if |params| != |Columns(table)| then None else
      match BindUpTo(table, params, |params|)
      case None => None
      case Some(bound) => if RowAllowed(table, WithId(table, bound, uuid)) then Some(WithId(table, bound, uuid))
                          else None
  }

  /** The row that a record's columns make up. */
  function RowOf(record: Record, table: SeedTable): Row {
    map c | c in Columns(table) :: Get(record, Name(c))
  }

  lemma {:induction false} BindPrefix(record: Record, table: SeedTable, n: nat)
    requires n <= |Columns(table)|
    ensures BindUpTo(table, Params(record, table), n) == Some(map c | c in Columns(table)[..n] :: Get(record, Name(c)))
  {
    hide Name, Columns, Get, ParamOf, StoredCell;
    if n > 0 {
      BindPrefix(record, table, n - 1);
      var c := Columns(table)[n - 1];
      assert Columns(table)[..n] == Columns(table)[..n - 1] + [c];
      ParamStored(record, c);
      var before := map x | x in Columns(table)[..n - 1] :: Get(record, Name(x));
      var after := map x | x in Columns(table)[..n] :: Get(record, Name(x));
      assert Params(record, table)[n - 1] == ParamOf(record, c);
      assert after == before[c := Get(record, Name(c))];
    }
  }

  lemma ParamStored(record: Record, c: Column)
    ensures StoredCell(ParamOf(record, c), IsVariant(c)) == Some(Get(record, Name(c)))
  {
    hide Name, Get;
  }

  /** Serialising and parsing cancel out: every column stores the record's own value. */
  lemma BindsEveryColumn(record: Record, table: SeedTable)
    ensures BindUpTo(table, Params(record, table), |Columns(table)|) == Some(RowOf(record, table))
  {
    hide Name, Columns;
    BindPrefix(record, table, |Columns(table)|);
    assert Columns(table)[..|Columns(table)|] == Columns(table);
  }

  // ----- Statements

  datatype Statement =
    | CurrentTransaction | SecondaryRolesNone | CurrentDatabase
    | Begin | Commit | Rollback
    | Enter
    | CountRoasts(ids: seq<Json>, keys: seq<Json>, slugs: seq<Json>)
    | CountTombstones(ids: seq<Json>, keys: seq<Json>, slugs: seq<Json>)
    | CountRevisions(ids: seq<Json>)
    | CountChildren(table: SeedTable, ids: seq<Json>)
    | Insert(table: SeedTable, params: seq<Param>)
    | SelectIdentities(keys: seq<Json>)
    | InsertRevision(id: Json, fieldName: string, writeSeq: int)
    | MergeSummary(params: seq<Param>)
    | Recompute(origin: Json, level: Json)

  datatype Cell = NullCell | IntCell(n: int) | TextCell(s: string) | OtherCell

  /** What a fetch returns: one row of cells, the identity pairs of a select, or nothing usable. */
  datatype Reply = OneRow(cells: seq<Cell>) | Pairs(pairs: seq<(Json, Json)>) | NoRow

  const LOCK_NAME := "cloud_sync_writer"
  const MAX_WRITE_SEQ := 9007199254740991

  /** `x IN (...)`: null is in no list. */
  predicate In(x: Json, list: seq<Json>) {
    x != JNull && x in list
  }

  function At(row: Row, c: Column): Json {
    if c in row then row[c] else JNull
  }

  predicate RoastMatches(row: Row, ids: seq<Json>, keys: seq<Json>, slugs: seq<Json>) {
    In(At(row, Id), ids) || In(At(row, IdempotencyKey), keys) || In(At(row, PublicSlug), slugs)
  }

  predicate TombstoneMatches(t: Tombstone, ids: seq<Json>, keys: seq<Json>, slugs: seq<Json>) {
    In(t.cloudRoastId, ids) || In(t.idempotencyKey, keys) || In(t.publicSlug, slugs)
  }

  function ChildRows(t: Tables, table: SeedTable): seq<Row> {
    match table
    case CloudRoasts => t.roasts
    case RoastTelemetry => t.telemetry
    case RoastArtifacts => t.artifacts
    case TastingReviews => t.reviews
    case ReferenceRoastSummaries => t.summaries
  }

  function AppendRow(t: Tables, table: SeedTable, row: Row): Tables {
    match table
    case CloudRoasts => t.(roasts := t.roasts + [row])
    case RoastTelemetry => t.(telemetry := t.telemetry + [row])
    case RoastArtifacts => t.(artifacts := t.artifacts + [row])
    case TastingReviews => t.(reviews := t.reviews + [row])
    case ReferenceRoastSummaries => t.(summaries := t.summaries + [row])
  }

  /** The parts of the server that the loader cannot see into. */
  datatype Server = Server(
    database: string,
    readsAreGlobal: bool,
    uuid: nat -> string,
    clock: nat -> string,
    aggregate: (seq<Row>, seq<Row>, seq<Row>, Json, Json) -> Row)

  predicate IsLock(l: Lock) {
    l.lockName == LOCK_NAME
  }

  function LocksOf(locks: seq<Lock>): seq<Lock> {
    Filter(IsLock, locks)
  }

  /** Exactly one lock row, whose next sequence is in range: what entering the write plane requires. */
  predicate CanEnter(t: Tables, server: Server) {
    && server.readsAreGlobal
    && |LocksOf(t.coordination)| == 1
    && 0 <= LockSeq(t.coordination) + 1 <= MAX_WRITE_SEQ
  }

  function LockSeq(locks: seq<Lock>): int {
    if locks == [] then 0
    else if IsLock(locks[|locks| - 1]) then locks[|locks| - 1].writeSeq
    else LockSeq(locks[..|locks| - 1])
  }

  function Bumped(locks: seq<Lock>): seq<Lock> {
    Map((l: Lock) => if IsLock(l) then Lock(l.lockName, l.writeSeq + 1) else l, locks)
  }

  predicate SameGroup(row: Row, origin: Json, level: Json) {
    origin != JNull && level != JNull && At(row, BeanOrigin) == origin && At(row, RoastLevel) == level
  }

  /** A matched row keeps its id and group; the other columns come from the source. */
  function MergedRow(row: Row, source: Row): Row {
    map c | c in Columns(ReferenceRoastSummaries) ::
      if c == Id || c == BeanOrigin || c == RoastLevel then At(row, c) else At(source, c)
  }

  function Merge(summaries: seq<Row>, source: Row): seq<Row> {
    var origin, level := At(source, BeanOrigin), At(source, RoastLevel);
    if exists i :: 0 <= i < |summaries| && SameGroup(summaries[i], origin, level)
    then Map((row: Row) => if SameGroup(row, origin, level) then MergedRow(row, source) else row, summaries)
    else summaries + [source]
  }

  /** The aggregates of a group, which the procedure computes from the roasts, their telemetry and their reviews. */
  function AggregatesOf(t: Tables, server: Server, origin: Json, level: Json): Row {
    server.aggregate(t.roasts, t.telemetry, t.reviews, origin, level)
  }

  /** The source row of a recomputation by the `k`th statement. */
  function RecomputedRow(t: Tables, server: Server, origin: Json, level: Json, k: nat): Row {
    AggregatesOf(t, server, origin, level)[Id := JStr(server.uuid(k))][BeanOrigin := origin][RoastLevel := level]
      [KeyPatterns := JArr([])][UpdatedAt := JStr(server.clock(k))]
  }

  predicate IsCount(s: Statement) {
    s.CountRoasts? || s.CountTombstones? || s.CountRevisions? || s.CountChildren?
  }

  function CountOf(s: Statement, t: Tables): nat
    requires IsCount(s)
  {
    match s
    case CountRoasts(ids, keys, slugs) => |Filter((row: Row) => RoastMatches(row, ids, keys, slugs), t.roasts)|
    case CountTombstones(ids, keys, slugs) =>
      |Filter((d: Tombstone) => TombstoneMatches(d, ids, keys, slugs), t.tombstones)|
    case CountRevisions(ids) => |Filter((r: Revision) => In(r.cloudRoastId, ids), t.revisions)|
    case CountChildren(table, ids) => |Filter((row: Row) => In(At(row, RoastId), ids), ChildRows(t, table))|
  }

  /** What a statement does to the tables, and what it answers; None when the server refuses it. */
  function Effect(s: Statement, t: Tables, server: Server, k: nat): Option<(Tables, Reply)> {
    match s
    case CurrentDatabase => Some((t, OneRow([TextCell(server.database)])))
    case Enter =>
      if CanEnter(t, server) then
        Some((t.(coordination := Bumped(t.coordination)), OneRow([IntCell(LockSeq(t.coordination) + 1)])))
      else None
    case CountRoasts(_, _, _) => Some((t, OneRow([IntCell(CountOf(s, t))])))
    case CountTombstones(_, _, _) => Some((t, OneRow([IntCell(CountOf(s, t))])))
    case CountRevisions(_) => Some((t, OneRow([IntCell(CountOf(s, t))])))
    case CountChildren(_, _) => Some((t, OneRow([IntCell(CountOf(s, t))])))
    case Insert(table, params) =>
      (match InsertedRow(table, params, server.uuid(k))
       case None => None
       case Some(row) => Some((AppendRow(t, table, row), NoRow)))
    case SelectIdentities(keys) =>
      Some((t, Pairs(Map((row: Row) => (At(row, IdempotencyKey), At(row, Id)),
                         Filter((row: Row) => In(At(row, IdempotencyKey), keys), t.roasts)))))
    case InsertRevision(id, fieldName, writeSeq) =>
      if id == JNull then None
      else Some((t.(revisions := t.revisions + [Revision(id, fieldName, 0, writeSeq)]), NoRow))
    case MergeSummary(params) =>
      (match InsertedRow(ReferenceRoastSummaries, params, server.uuid(k))
       case None => None
       case Some(source) => Some((t.(summaries := Merge(t.summaries, source)), NoRow)))
    case Recompute(origin, level) =>
      if !CanEnter(t, server) then None else
        var entered := t.(coordination := Bumped(t.coordination));
        if origin == JNull || level == JNull then Some((entered, NoRow)) else
          var source := RecomputedRow(entered, server, origin, level, k);
          Some((entered.(summaries := Merge(entered.summaries, source)), NoRow))
    case _ => Some((t, NoRow))
  }

  /** The tables after a run of statements, the first of which is the `k`th of the connection. */
  function Run(statements: seq<Statement>, t: Tables, server: Server, k: nat): Option<Tables>
    decreases |statements|
  {
    if statements == [] then Some(t) else
      match Effect(statements[0], t, server, k)
      case None => None
      case Some((t', reply)) => Run(statements[1..], t', server, k + 1)
  }

  lemma {:induction false} RunConcat(a: seq<Statement>, b: seq<Statement>, t: Tables, server: Server, k: nat)
    ensures Run(a + b, t, server, k)
            == match Run(a, t, server, k) case None => None case Some(t') => Run(b, t', server, k + |a|)
    decreases |a|
  {
    hide Effect;
    if a == [] {
      assert a + b == b;
    } else {
      assert (a + b)[1..] == a[1..] + b;
      match Effect(a[0], t, server, k)
      case None =>
      case Some((t', reply)) => RunConcat(a[1..], b, t', server, k + 1);
    }
  }

  // ----- The connection

  datatype StatementError = StatementFailed

  /** A connection whose every statement may fail, and whose every answer may come back unusable. */
  class Connection {
    const server: Server
    const fails: nat -> bool
    const garbles: nat -> bool
    /** What other sessions see, and what this session sees. */
    var committed: Tables
    var working: Tables
    var inTransaction: bool
    var executed: nat
    ghost var log: seq<Statement>

    constructor (server: Server, fails: nat -> bool, garbles: nat -> bool, tables: Tables, inTransaction: bool)
      ensures this.server == server && this.fails == fails && this.garbles == garbles
      ensures committed == tables && working == tables && this.inTransaction == inTransaction && executed == 0
              && log == []
    {
      this.server := server;
      this.fails := fails;
      this.garbles := garbles;
      committed := tables;
      working := tables;
      this.inTransaction := inTransaction;
      executed := 0;
      log := [];
    }

    ghost predicate Valid()
      reads this
    {
      !inTransaction ==> working == committed
    }

    method Execute(s: Statement) returns (r: Result<Reply, StatementError>)
      requires Valid()
      modifies this
      ensures Valid() && executed == old(executed) + 1 && log == old(log) + [s]
      ensures r.Failure? ==>
                && committed == old(committed) && working == old(working) && inTransaction == old(inTransaction)
                && (fails(old(executed)) || Effect(s, old(working), server, old(executed)).None?)
      ensures r.Success? ==> !fails(old(executed)) && Effect(s, old(working), server, old(executed)).Some?
      ensures r.Success? ==>
                && inTransaction == (s.Begin? || (old(inTransaction) && !s.Commit? && !s.Rollback?))
                && working == (if s.Rollback? then old(committed)
                               else Effect(s, old(working), server, old(executed)).value.0)
                && committed == (if old(inTransaction) && !s.Commit? then old(committed) else working)
                && r.value == (if garbles(old(executed)) then NoRow
                               else if s.CurrentTransaction? then
                                 OneRow([if old(inTransaction) then OtherCell else NullCell])
                               else Effect(s, old(working), server, old(executed)).value.1)
    {
      var k := executed;
      executed := executed + 1;
      log := log + [s];
      if fails(k) { return Failure(StatementFailed); }
      var effect := Effect(s, working, server, k);
      if effect.None? { return Failure(StatementFailed); }
      var reply := effect.value.1;
      match s {
        case Begin => inTransaction := true;
        case Commit => committed := working; inTransaction := false;
        case Rollback => working := committed; inTransaction := false;
        case CurrentTransaction => reply := OneRow([if inTransaction then OtherCell else NullCell]);
        case _ =>
          working := effect.value.0;
          if !inTransaction { committed := working; }
      }
      r := Success(if garbles(k) then NoRow else reply);
    }
  }
}

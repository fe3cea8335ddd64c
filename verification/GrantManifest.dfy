/** The offline grant manifest check: parsing a rendered migration and comparing it with the expected rows. */
module GrantManifest {
  import opened Wrappers
  import opened Sequences
  import opened Splitting
  import opened SqlText
  import opened SqlComments
  import opened GrantGrammar

  /** A grant or a revoke; which of the two it is depends on the set that holds it. */
  datatype ManifestRow = ManifestRow(privileges: set<string>, objectType: string, objectName: string, roleName: string)

  datatype Problem =
    | UnrecognizedObjectType(statement: string) | UnrecognizedStatement(statement: string)
    | UnrecognizedRevoke(statement: string)
    | UnauthorizedGrantee(statement: string) | ProcedurePrivilege(statement: string)
    | FileFormatPrivilege(statement: string)
    | StagePrivileges(statement: string) | RevokePrivileges(statement: string)

  const ALLOWED_ROLES := {"PUBLIC_WEB", "ROASTPILOT_AGENT"}
  const ALLOWED_OBJECT_TYPES := {"DATABASE", "SCHEMA", "WAREHOUSE", "VIEW", "TABLE", "STAGE", FILE_FORMAT, "PROCEDURE"}

  const GRANT_SHAPE := Shape("GRANT", "TO", ALLOWED_OBJECT_TYPES, false)
  const REVOKE_SHAPE := Shape("REVOKE", "FROM", {"TABLE"}, false)
  const ANY_GRANT := Shape("GRANT", "TO", {}, true)
  const ANY_REVOKE := Shape("REVOKE", "FROM", {}, true)

  // ----- One statement

  function UseSchemaRest(statement: string): Option<string> {
    match Keyword(statement, "USE")
    case None => None
    case Some(s1) =>
      match Gap(s1)
      case None => None
      case Some(s2) =>
        match Keyword(s2, "SCHEMA")
        case None => None
        case Some(s3) => Gap(s3)
  }

  predicate IsUseSchema(statement: string) {
    UseSchemaRest(statement).Some? && Upper(UseSchemaRest(statement).value) == "APP"
  }

  /** A name that starts like a second word of an object type. */
  predicate IsBareName(name: string) {
    match Word(name)
    case None => false
    case Some((_, rest)) => Gap(rest).Some? && Gap(rest).value != ""
  }

  predicate WordChar(c: char) {
    IsLetter(c) || '0' <= c <= '9' || c == '_'
  }

  predicate StartsRevoke(statement: string) {
    Keyword(statement, "REVOKE").Some? && (|statement| == 6 || !WordChar(statement[6]))
  }

  predicate StartsGrant(statement: string) {
    Keyword(statement, "GRANT ").Some?
  }

  function UpperSet(words: seq<string>): set<string> {
    set word | word in words :: Upper(word)
  }

  function RowOf(f: Form): ManifestRow {
    ManifestRow(UpperSet(f.privileges), f.typeName, f.name, f.role)
  }

  function If(condition: bool, p: Problem): seq<Problem> {
    if condition then [p] else []
  }

  /** The guards on a parsed grant. */
  function GrantProblems(r: ManifestRow, statement: string): seq<Problem> {
    If(r.roleName !in ALLOWED_ROLES, UnauthorizedGrantee(statement))
    + If(r.objectType == "PROCEDURE" && r.privileges != {"USAGE"}, ProcedurePrivilege(statement))
    + If(r.objectType == FILE_FORMAT && r.privileges != {"USAGE"}, FileFormatPrivilege(statement))
    + If(r.objectType == "STAGE" && r.privileges != {"READ", "WRITE"}, StagePrivileges(statement))
  }

  function RevokeProblems(r: ManifestRow, statement: string): seq<Problem> {
    If(r.roleName !in ALLOWED_ROLES, UnauthorizedGrantee(statement))
    + If(r.privileges != {"INSERT", "UPDATE", "DELETE"}, RevokePrivileges(statement))
  }

  /** What the rows and problems of some statements are. */
  datatype Outcome = Outcome(grants: set<ManifestRow>, revokes: set<ManifestRow>, problems: seq<Problem>)

  const NOTHING := Outcome({}, {}, [])

  function Both(a: Outcome, b: Outcome): Outcome {
    Outcome(a.grants + b.grants, a.revokes + b.revokes, a.problems + b.problems)
  }

  function GrantOutcome(f: Form, statement: string): Outcome {
    if IsBareName(f.name) then Outcome({}, {}, [UnrecognizedObjectType(statement)])
    else Outcome({RowOf(f)}, {}, GrantProblems(RowOf(f), statement))
  }

  function RevokeOutcome(f: Form, statement: string): Outcome {
    if IsBareName(f.name) then Outcome({}, {}, [UnrecognizedObjectType(statement)])
    else Outcome({}, {RowOf(f)}, RevokeProblems(RowOf(f), statement))
  }

  /** One statement between semicolons. */
  function StatementOutcome(raw: string): Outcome {
    var statement := Strip(raw);
    if statement == "" || IsUseSchema(statement) then NOTHING
    else if ParseForm(statement, GRANT_SHAPE).Some? then
      GrantOutcome(ParseForm(statement, GRANT_SHAPE).value, statement)
    else if StartsGrant(statement) then
      Outcome({}, {},
              [if ParseForm(statement, ANY_GRANT).None? then UnrecognizedStatement(statement)
               else UnrecognizedObjectType(statement)])
    else if ParseForm(statement, REVOKE_SHAPE).Some? then
      RevokeOutcome(ParseForm(statement, REVOKE_SHAPE).value, statement)
    else if StartsRevoke(statement) then
      Outcome({}, {},
              [if ParseForm(statement, ANY_REVOKE).None? then UnrecognizedRevoke(statement)
               else UnrecognizedObjectType(statement)])
    else Outcome({}, {}, [UnrecognizedStatement(statement)])
  }

  // ----- The whole text

  function OutcomeOf(statements: seq<string>): Outcome {
    if statements == [] then NOTHING
    else Both(OutcomeOf(statements[..|statements| - 1]), StatementOutcome(statements[|statements| - 1]))
  }

  function ParseOutcome(sql: string): Outcome {
    OutcomeOf(Split(Uncomment(sql), ';'))
  }

  method ParseStatement(raw: string)
    returns (grants: set<ManifestRow>, revokes: set<ManifestRow>, problems: seq<Problem>)
    ensures Outcome(grants, revokes, problems) == StatementOutcome(raw)
  {
    hide ParseForm, IsUseSchema, StartsGrant, StartsRevoke, IsBareName, GrantProblems, RevokeProblems, RowOf, Strip;
    grants, revokes, problems := {}, {}, [];
    var statement := Strip(raw);
    if statement == "" || IsUseSchema(statement) { return; }
    var grant := ParseForm(statement, GRANT_SHAPE);
    if grant.Some? {
      if IsBareName(grant.value.name) { problems := [UnrecognizedObjectType(statement)]; return; }
      grants := {RowOf(grant.value)};
      problems := GrantProblems(RowOf(grant.value), statement);
      return;
    }
    if StartsGrant(statement) {
      var loose := ParseForm(statement, ANY_GRANT);
      problems := [if loose.None? then UnrecognizedStatement(statement) else UnrecognizedObjectType(statement)];
      return;
    }
    var revoke := ParseForm(statement, REVOKE_SHAPE);
    if revoke.Some? {
      if IsBareName(revoke.value.name) { problems := [UnrecognizedObjectType(statement)]; return; }
      revokes := {RowOf(revoke.value)};
      problems := RevokeProblems(RowOf(revoke.value), statement);
      return;
    }
    if StartsRevoke(statement) {
      var loose := ParseForm(statement, ANY_REVOKE);
      problems := [if loose.None? then UnrecognizedRevoke(statement) else UnrecognizedObjectType(statement)];
      return;
    }
    problems := [UnrecognizedStatement(statement)];
  }

  method ParseRenderedSql(sql: string)
    returns (grants: set<ManifestRow>, revokes: set<ManifestRow>, problems: seq<Problem>)
    ensures Outcome(grants, revokes, problems) == ParseOutcome(sql)
  {
    hide StatementOutcome, Uncomment, Split;
    grants, revokes, problems := {}, {}, [];
    var statements := Split(Uncomment(sql), ';');
    for i := 0 to |statements|
      invariant Outcome(grants, revokes, problems) == OutcomeOf(statements[..i])
    {
      var moreGrants, moreRevokes, moreProblems := ParseStatement(statements[i]);
      grants := grants + moreGrants;
      revokes := revokes + moreRevokes;
      problems := problems + moreProblems;
      assert statements[..i + 1][..i] == statements[..i];
    }
    assert statements[..|statements|] == statements;
  }

  datatype Violation =
    | Parsed(problem: Problem)
    | MissingGrant(row: ManifestRow) | ExtraGrant(row: ManifestRow) | MissingRevoke(row: ManifestRow)
    | ExtraRevoke(row: ManifestRow)

  /** A sort lists every element of its set once; which order it chooses is its own affair. */
  ghost predicate Sorts(sorted: set<ManifestRow> -> seq<ManifestRow>) {
    forall rows :: Distinct(sorted(rows)) && forall r :: r in sorted(rows) <==> r in rows
  }

  /** The report on what was parsed: every problem, then both differences of both sets. */
  function Report(parsed: Outcome, grants: set<ManifestRow>, revokes: set<ManifestRow>,
                  byGrant: set<ManifestRow> -> seq<ManifestRow>, byRevoke: set<ManifestRow> -> seq<ManifestRow>)
    : seq<Violation>
  {
    Map((p: Problem) => Parsed(p), parsed.problems)
    + Map((r: ManifestRow) => MissingGrant(r), byGrant(grants - parsed.grants))
    + Map((r: ManifestRow) => ExtraGrant(r), byGrant(parsed.grants - grants))
    + Map((r: ManifestRow) => MissingRevoke(r), byRevoke(revokes - parsed.revokes))
    + Map((r: ManifestRow) => ExtraRevoke(r), byRevoke(parsed.revokes - revokes))
  }

  method ManifestViolations(sql: string, expectedGrants: set<ManifestRow>, expectedRevokes: set<ManifestRow>,
                            byGrant: set<ManifestRow> -> seq<ManifestRow>,
                            byRevoke: set<ManifestRow> -> seq<ManifestRow>)
    returns (violations: seq<Violation>)
    requires Sorts(byGrant) && Sorts(byRevoke)
    ensures violations == Report(ParseOutcome(sql), expectedGrants, expectedRevokes, byGrant, byRevoke)
    ensures violations == [] <==> ParseOutcome(sql) == Outcome(expectedGrants, expectedRevokes, [])
  {
    hide ParseOutcome, Sorts;
    var grants, revokes, problems := ParseRenderedSql(sql);
    violations := Map((p: Problem) => Parsed(p), problems);
    violations := violations + Map((r: ManifestRow) => MissingGrant(r), byGrant(expectedGrants - grants));
    violations := violations + Map((r: ManifestRow) => ExtraGrant(r), byGrant(grants - expectedGrants));
    violations := violations + Map((r: ManifestRow) => MissingRevoke(r), byRevoke(expectedRevokes - revokes));
    violations := violations + Map((r: ManifestRow) => ExtraRevoke(r), byRevoke(revokes - expectedRevokes));
    ReportsNothing(Outcome(grants, revokes, problems), expectedGrants, expectedRevokes, byGrant, byRevoke);
  }

  lemma SortsNothing(sorted: set<ManifestRow> -> seq<ManifestRow>, rows: set<ManifestRow>)
    requires Sorts(sorted)
    ensures sorted(rows) == [] <==> rows == {}
  {
    if sorted(rows) == [] {
      forall r ensures r !in rows { assert r in rows <==> r in sorted(rows); }
    } else {
      assert sorted(rows)[0] in sorted(rows);
    }
  }

  /** Nothing is reported exactly when both sets are as expected and no problem was found. */
  lemma ReportsNothing(parsed: Outcome, grants: set<ManifestRow>, revokes: set<ManifestRow>,
                       byGrant: set<ManifestRow> -> seq<ManifestRow>, byRevoke: set<ManifestRow> -> seq<ManifestRow>)
    requires Sorts(byGrant) && Sorts(byRevoke)
    ensures Report(parsed, grants, revokes, byGrant, byRevoke) == [] <==> parsed == Outcome(grants, revokes, [])
  {
    hide Sorts;
    SortsNothing(byGrant, grants - parsed.grants);
    SortsNothing(byGrant, parsed.grants - grants);
    SortsNothing(byRevoke, revokes - parsed.revokes);
    SortsNothing(byRevoke, parsed.revokes - revokes);
    SameSets(grants, parsed.grants);
    SameSets(revokes, parsed.revokes);
  }

  lemma SameSets(a: set<ManifestRow>, b: set<ManifestRow>)
    ensures a == b <==> a - b == {} && b - a == {}
  {
    if a - b == {} && b - a == {} {
      forall r ensures r in a <==> r in b {
        assert r !in a - b && r !in b - a;
      }
    }
  }

  // ----- A grant without an object

  /** The corner in one concrete statement: it is accepted, with a space for the object's name. */
  lemma NamelessGrantParses()
    ensures ParseForm("GRANT SELECT ON TABLE   TO ROLE X", GRANT_SHAPE) == Some(Form(["SELECT"], "TABLE", " ", "X"))
  {
    hide ParseForm, IsSpace, Spaces, NoSpaces, IsLetter;
    var n := Nameless(
      HeadParts("GRANT", " ", "SELECT", [], " ", "ON", " ", OneWord("TABLE")), "   ", "TO", " ", "ROLE", " ", "X");
    NamelessWords();
    TableIsType();
    assert SpellNameless(n) == "GRANT SELECT ON TABLE   TO ROLE X" by { NamelessText(n); }
    NamelessParses(n, GRANT_SHAPE);
    assert [n.head.first] + WordsOf([]) == ["SELECT"] && [n.gap5[1]] == " ";
  }

  lemma NamelessText(n: Nameless)
    requires n == Nameless(
      HeadParts("GRANT", " ", "SELECT", [], " ", "ON", " ", OneWord("TABLE")), "   ", "TO", " ", "ROLE", " ", "X")
    ensures SpellNameless(n) == "GRANT SELECT ON TABLE   TO ROLE X"
  {
    assert SpellMore([]) == "";
    assert SpellParts(n.head) == "GRANT SELECT ON TABLE";
  }

  lemma NamelessWords()
    ensures IsWord("SELECT") && IsWord("TABLE") && IsGap(" ") && IsGap("   ")
    ensures IsToken("TO") && IsToken("ROLE") && IsToken("X")
    ensures Upper("GRANT") == "GRANT" && Upper("ON") == "ON" && Upper("TABLE") == "TABLE"
    ensures Upper("TO") == "TO" && Upper("ROLE") == "ROLE"
  {
  }

  lemma TableIsType()
    ensures ValidType(OneWord("TABLE"), GRANT_SHAPE)
  {
    NamelessWords();
  }

  // ----- The order of statements does not matter

  lemma OutcomeAppend(statements: seq<string>, last: string)
    ensures OutcomeOf(statements + [last]) == Both(OutcomeOf(statements), StatementOutcome(last))
  {
    assert (statements + [last])[..|statements|] == statements;
  }

  lemma {:induction false} OutcomeConcat(a: seq<string>, b: seq<string>)
    ensures OutcomeOf(a + b) == Both(OutcomeOf(a), OutcomeOf(b))
  {
    hide StatementOutcome;
    if b == [] {
      assert a + b == a && Both(OutcomeOf(a), NOTHING) == OutcomeOf(a);
    } else {
      var init, last := b[..|b| - 1], b[|b| - 1];
      OutcomeConcat(a, init);
      assert a + b == a + init + [last];
      OutcomeAppend(a + init, last);
      BothAssociates(OutcomeOf(a), OutcomeOf(init), StatementOutcome(last));
    }
  }

  lemma BothAssociates(a: Outcome, b: Outcome, c: Outcome)
    ensures Both(Both(a, b), c) == Both(a, Both(b, c))
  {
  }

  predicate SameUpToOrder(a: Outcome, b: Outcome) {
    a.grants == b.grants && a.revokes == b.revokes && multiset(a.problems) == multiset(b.problems)
  }

  lemma SameWithoutOne(init: seq<string>, front: seq<string>, back: seq<string>, last: string)
    requires multiset(init + [last]) == multiset(front + [last] + back)
    ensures multiset(init) == multiset(front + back)
  {
    assert multiset(init + [last]) == multiset(init) + multiset{last};
    assert multiset(front + [last] + back) == multiset(front) + multiset{last} + multiset(back);
    assert multiset(front + back) == multiset(front) + multiset(back);
    forall s ensures multiset(init)[s] == multiset(front + back)[s] {
      assert (multiset(init) + multiset{last})[s] == (multiset(front) + multiset{last} + multiset(back))[s];
    }
  }

  /** Of split statements, only which there are counts. */
  lemma {:induction false} PermutedOutcomes(a: seq<string>, b: seq<string>)
    requires multiset(a) == multiset(b)
    ensures SameUpToOrder(OutcomeOf(a), OutcomeOf(b))
    decreases |a|
  {
    hide StatementOutcome, OutcomeOf;
    if a == [] {
      assert |multiset(b)| == 0;
      assert b == [];
    } else {
      var init, last := a[..|a| - 1], a[|a| - 1];
      assert last in multiset(b);
      var k :| 0 <= k < |b| && b[k] == last;
      var front, back := b[..k], b[k + 1..];
      assert a == init + [last] && b == front + [last] + back;
      SameWithoutOne(init, front, back, last);
      PermutedOutcomes(init, front + back);
      OutcomeAppend(init, last);
      OutcomeAppend(front, last);
      OutcomeConcat(front + [last], back);
      OutcomeConcat(front, back);
      Rotates(OutcomeOf(init), OutcomeOf(front), OutcomeOf(back), StatementOutcome(last));
    }
  }

  lemma Rotates(init: Outcome, front: Outcome, back: Outcome, last: Outcome)
    requires SameUpToOrder(init, Both(front, back))
    ensures SameUpToOrder(Both(init, last), Both(Both(front, last), back))
  {
  }

  lemma MapConcat(f: string -> string, a: seq<string>, b: seq<string>)
    ensures Map(f, a + b) == Map(f, a) + Map(f, b)
  {
  }

  lemma MapWithOne(f: string -> string, front: seq<string>, last: string, back: seq<string>)
    ensures multiset(Map(f, front + [last] + back)) == multiset(Map(f, front + back)) + multiset{f(last)}
  {
    hide Map;
    MapConcat(f, front + [last], back);
    MapConcat(f, front, [last]);
    MapConcat(f, front, back);
    assert Map(f, [last]) == [f(last)];
  }

  lemma {:induction false} PermutedMaps(f: string -> string, a: seq<string>, b: seq<string>)
    requires multiset(a) == multiset(b)
    ensures multiset(Map(f, a)) == multiset(Map(f, b))
    decreases |a|
  {
    hide Map;
    if a == [] {
      assert |multiset(b)| == 0;
      assert b == [];
    } else {
      var init, last := a[..|a| - 1], a[|a| - 1];
      assert last in multiset(b);
      var k :| 0 <= k < |b| && b[k] == last;
      var front, back := b[..k], b[k + 1..];
      assert a == init + [last] && b == front + [last] + back;
      SameWithoutOne(init, front, back, last);
      PermutedMaps(f, init, front + back);
      MapWithOne(f, init, last, []);
      assert init + [last] + [] == a && init + [] == init;
      MapWithOne(f, front, last, back);
    }
  }

  /** A statement as written: its comments are closed within it, and outside them it has no semicolon. */
  predicate IsPiece(piece: string) {
    Complete(piece) && Without(Uncomment(piece), ';')
  }

  predicate ArePieces(pieces: seq<string>) {
    forall i :: 0 <= i < |pieces| ==> IsPiece(pieces[i])
  }

  lemma UncommentSemicolon(rest: string)
    ensures Uncomment([';'] + rest) == [';'] + Uncomment(rest)
  {
    hide Uncomment, CommentLength;
    CodeStays([';'], rest);
    UncommentKeeps([';'] + rest);
    assert ([';'] + rest)[1..] == rest;
  }

  lemma {:induction false} UncommentJoined(pieces: seq<string>)
    requires ArePieces(pieces)
    ensures Uncomment(Joined(pieces, ';')) == Joined(Map(Uncomment, pieces), ';')
  {
    hide Uncomment, Complete, Without, Joined;
    if pieces == [] {
      EmptyText();
      assert Map(Uncomment, pieces) == [];
    } else if |pieces| == 1 {
      assert pieces == [pieces[0]];
      JoinedOne(pieces[0], ';');
      JoinedOne(Uncomment(pieces[0]), ';');
      assert Map(Uncomment, pieces) == [Uncomment(pieces[0])];
    } else {
      var first, rest := pieces[0], pieces[1..];
      UncommentJoined(rest);
      assert pieces == [first] + rest;
      assert Map(Uncomment, pieces) == [Uncomment(first)] + Map(Uncomment, rest);
      JoinedCons(first, rest, ';');
      JoinedCons(Uncomment(first), Map(Uncomment, rest), ';');
      assert first + [';'] + Joined(rest, ';') == first + ([';'] + Joined(rest, ';'));
      UncommentSplits(first, [';'] + Joined(rest, ';'));
      UncommentSemicolon(Joined(rest, ';'));
      var tail := Joined(Map(Uncomment, rest), ';');
      assert Uncomment(first) + ([';'] + tail) == Uncomment(first) + [';'] + tail;
    }
  }

  lemma EmptyText()
    ensures Joined([], ';') == "" && Uncomment("") == ""
  {
  }

  /** A text written statement by statement is parsed statement by statement. */
  lemma PiecesParse(pieces: seq<string>)
    requires pieces != [] && ArePieces(pieces)
    ensures ParseOutcome(Joined(pieces, ';')) == OutcomeOf(Map(Uncomment, pieces))
  {
    hide OutcomeOf, Split, Joined, Uncomment, Complete, Without;
    UncommentJoined(pieces);
    JoinedSplit(Map(Uncomment, pieces), ';');
  }

  /** The statements of a rendered text can be written in any order. */
  lemma OrderDoesNotMatter(a: seq<string>, b: seq<string>)
    requires a != [] && ArePieces(a) && multiset(a) == multiset(b)
    ensures SameUpToOrder(ParseOutcome(Joined(a, ';')), ParseOutcome(Joined(b, ';')))
  {
    hide ParseOutcome, OutcomeOf, Joined, IsPiece, SameUpToOrder, Uncomment;
    forall i | 0 <= i < |b| ensures IsPiece(b[i]) {
      assert b[i] in multiset(b) && b[i] in a;
    }
    assert |multiset(a)| == |a| && |multiset(b)| == |b|;
    PiecesParse(a);
    PiecesParse(b);
    PermutedMaps(Uncomment, a, b);
    PermutedOutcomes(Map(Uncomment, a), Map(Uncomment, b));
  }

  /** Comments change nothing, wherever they stand between complete text. */
  lemma CommentsDoNotMatter(before: string, comment: string, after: string)
    requires Complete(before) && IsComment(comment)
    ensures ParseOutcome(before + comment + after) == ParseOutcome(before + after)
  {
    hide Uncomment, OutcomeOf, Split, Complete, IsComment;
    CommentInvisible(before, comment, after);
  }
}

/** Rows of SHOW GRANTS, and what the offline manifest looks like among them. */
module LiveGrants {
  import opened Wrappers
  import opened Sequences
  import opened Splitting
  import opened SqlText
  import opened Text
  import opened GrantGrammar
  import opened GrantManifest

  /** The grant_option column: missing, null, a boolean, a text, or anything else. */
  datatype GrantOption = Absent | Null | Flag(b: bool) | Text(s: string) | OtherValue

  /** Only the known false and empty forms. */
  predicate OptionIsFalse(o: GrantOption) {
    match o
    case Null => true
    case Flag(b) => !b
    case Text(s) => s == "" || ToLower(s) == "false"
    case _ => false
  }

  /** The forms, written out: null, false, no text, and the word in any case. */
  lemma OptionIsFalseExactly(o: GrantOption)
    ensures OptionIsFalse(o)
            <==> || o == Null || o == Flag(false) || o == Text("")
                 || (o.Text? && |o.s| == 5 && o.s[0] in {'f', 'F'} && o.s[1] in {'a', 'A'} && o.s[2] in {'l', 'L'}
                     && o.s[3] in {'s', 'S'} && o.s[4] in {'e', 'E'})
  {
    if o.Text? {
      var lower := ToLower(o.s);
      assert lower == "false" <==> |o.s| == 5 && lower[0] == 'f' && lower[1] == 'a' && lower[2] == 'l'
                                   && lower[3] == 's' && lower[4] == 'e';
    }
  }

  datatype LiveRow = LiveRow(
    privilege: string, grantedOn: string, name: string, grantedTo: string, granteeName: string,
    grantOption: GrantOption)

  datatype RoleGrant = RoleGrant(privilege: string, objectType: string, name: string, grantee: string)

  /** Vocabulary is normalised; identifiers stay as they are. */
  function GrantOf(row: LiveRow): RoleGrant {
    RoleGrant(Upper(Strip(row.privilege)), Upper(Strip(row.grantedOn)), row.name, row.granteeName)
  }

  // ----- Names

  predicate HasDot(name: string) {
    !Without(name, '.')
  }

  /** The text before the first dot, or all of it. */
  function Container(name: string): string {
    name[..HeadLength(name, '.')]
  }

  /** The text after the first dot, or nothing. */
  function EnvironmentInvariantName(name: string): string {
    var k := HeadLength(name, '.');
    if k < |name| then name[k + 1..] else ""
  }

  lemma DotAfter(database: string, rest: string)
    requires Without(database, '.')
    ensures HasDot(database + "." + rest)
    ensures Container(database + "." + rest) == database && EnvironmentInvariantName(database + "." + rest) == rest
  {
    var s := database + "." + rest;
    assert s == database + ['.'] + rest;
    HeadOf(database, '.', rest);
    assert s[|database|] == '.';
  }

  lemma NoDot(name: string)
    requires Without(name, '.')
    ensures !HasDot(name) && Container(name) == name && EnvironmentInvariantName(name) == ""
  {
    HeadOfLast(name, '.');
  }

  lemma DotSplits(name: string)
    requires HasDot(name)
    ensures Without(Container(name), '.') && name == Container(name) + "." + EnvironmentInvariantName(name)
  {
    var k := HeadLength(name, '.');
    assert k < |name|;
    assert name == name[..k] + [name[k]] + name[k + 1..];
  }

  /** Membership of a container is a matter of the whole first component. */
  lemma ContainerExact(name: string, database: string)
    requires Without(database, '.')
    ensures Container(name) == database <==> name == database || exists rest :: name == database + "." + rest
  {
    if HasDot(name) {
      DotSplits(name);
      if Container(name) == database { assert name == database + "." + EnvironmentInvariantName(name); }
    } else {
      NoDot(name);
    }
    if rest :| name == database + "." + rest { DotAfter(database, rest); }
  }

  // ----- From the manifest to live rows

  const PUBLIC_WEB := "PUBLIC_WEB"
  const ROASTPILOT_AGENT := "ROASTPILOT_AGENT"
  const EXPECTED_DATABASE := "ROASTPILOT_DEV"

  predicate HasSpace(s: string) {
    exists i :: 0 <= i < |s| && s[i] == ' '
  }

  /** None where the transform raises. */
  function LiveObjectType(offline: string): Option<string> {
    if offline == FILE_FORMAT then Some("FILE_FORMAT")
    else if offline == "MATERIALIZED VIEW" then Some("MATERIALIZED_VIEW")
    else if HasSpace(offline) then None
    else Some(offline)
  }

  /** Splitting at a comma followed by a space. */
  function SplitList(s: string): (parts: seq<string>)
    ensures parts != []
  {
    if |s| < 2 then [s]
    else if s[0] == ',' && s[1] == ' ' then [""] + SplitList(s[2..])
    else var rest := SplitList(s[1..]); [[s[0]] + rest[0]] + rest[1..]
  }

  function LiveArgument(offline: string): Option<string> {
    if offline == "string" then Some("VARCHAR")
    else if offline == "int" || offline == "smallint" then Some("NUMBER")
    else None
  }

  function LiveArguments(offline: seq<string>): Option<string> {
    if offline == [] then Some("")
    else if |offline| == 1 then LiveArgument(offline[0])
    else
      var first, rest := LiveArgument(offline[0]), LiveArguments(offline[1..]);
      if first.Some? && rest.Some? then Some(first.value + ", " + rest.value) else None
  }

  /** The text before and after the first occurrence of a character. */
  function Partition(s: string, sep: char): Option<(string, string)> {
    var k := HeadLength(s, sep);
    if k < |s| then Some((s[..k], s[k + 1..])) else None
  }

  /** A procedure's live name below its schema. */
  function LiveSignature(offline: string): Option<string> {
    match Partition(offline, '(')
    case None => None
    case Some((qualified, arguments)) =>
      match Partition(qualified, '.')
      case None => None
      case Some((schema, procedure)) =>
        if schema != "app" || arguments == "" || arguments[|arguments| - 1] != ')' then None else
          match LiveArguments(SplitList(arguments[..|arguments| - 1]))
          case None => None
          case Some(live) => Some(Upper(procedure) + "(" + live + ")")
  }

  function CanonicalObject(offline: string): Option<string> {
    match Partition(offline, '.')
    case None => None
    case Some((schema, name)) => if schema != "app" || HasDot(name) then None else Some(Upper(name))
  }

  /** A parameter list as it is written offline and reported live. */
  function CommaList(types: seq<string>): string {
    if types == [] then "" else if |types| == 1 then types[0] else types[0] + ", " + CommaList(types[1..])
  }

  predicate KnownTypes(types: seq<string>) {
    forall i :: 0 <= i < |types| ==> LiveArgument(types[i]).Some?
  }

  function LiveTypes(types: seq<string>): seq<string>
    requires KnownTypes(types)
  {
    if types == [] then [] else [LiveArgument(types[0]).value] + LiveTypes(types[1..])
  }

  lemma {:induction false} SplitFirst(part: string, rest: string)
    requires Without(part, ',')
    ensures SplitList(part + ", " + rest) == [part] + SplitList(rest)
  {
    var s := part + ", " + rest;
    if part == "" {
      assert s == ", " + rest && s[2..] == rest;
    } else {
      assert s[1..] == part[1..] + ", " + rest && s[0] == part[0];
      SplitFirst(part[1..], rest);
      assert [part[0]] + part[1..] == part;
    }
  }

  lemma {:induction false} SplitLast(part: string)
    requires Without(part, ',')
    ensures SplitList(part) == [part]
  {
    if |part| >= 2 {
      SplitLast(part[1..]);
      assert [part[0]] + part[1..] == part;
    }
  }

  lemma KnownWithoutComma(t: string)
    requires LiveArgument(t).Some?
    ensures Without(t, ',') && Without(t, '(')
  {
  }

  lemma {:induction false} ArgumentsTransform(types: seq<string>)
    requires types != [] && KnownTypes(types)
    ensures SplitList(CommaList(types)) == types
    ensures LiveArguments(types) == Some(CommaList(LiveTypes(types)))
  {
    hide LiveArgument, SplitList;
    KnownWithoutComma(types[0]);
    if |types| == 1 {
      SplitLast(types[0]);
      assert LiveTypes(types) == [LiveArgument(types[0]).value];
    } else {
      var rest := types[1..];
      ArgumentsTransform(rest);
      SplitFirst(types[0], CommaList(rest));
      assert types == [types[0]] + rest;
      LiveTypesCount(rest);
      assert LiveTypes(types)[1..] == LiveTypes(rest);
    }
  }

  lemma {:induction false} LiveTypesCount(types: seq<string>)
    requires KnownTypes(types)
    ensures |LiveTypes(types)| == |types|
  {
    if types != [] { LiveTypesCount(types[1..]); }
  }

  lemma PartitionAt(a: string, sep: char, b: string)
    requires Without(a, sep)
    ensures Partition(a + [sep] + b, sep) == Some((a, b))
  {
    HeadOf(a, sep, b);
    assert (a + [sep] + b)[..|a|] == a && (a + [sep] + b)[|a| + 1..] == b;
  }

  /** A written signature becomes the procedure's name in upper case with each parameter's live type, in order. */
  lemma SignatureTransforms(procedure: string, types: seq<string>)
    requires Without(procedure, '(') && types != [] && KnownTypes(types)
    ensures LiveSignature("app." + procedure + "(" + CommaList(types) + ")")
            == Some(Upper(procedure) + "(" + CommaList(LiveTypes(types)) + ")")
  {
    hide LiveArguments, LiveTypes, KnownTypes, Partition, SplitList, CommaList, Upper;
    var qualified, arguments := "app." + procedure, CommaList(types) + ")";
    ArgumentsTransform(types);
    assert "app." + procedure + "(" + CommaList(types) + ")" == qualified + ['('] + arguments;
    assert forall i :: 0 <= i < |qualified| ==> qualified[i] == if i < 4 then "app."[i] else procedure[i - 4];
    PartitionAt(qualified, '(', arguments);
    assert qualified == "app" + ['.'] + procedure;
    PartitionAt("app", '.', procedure);
    assert arguments[..|arguments| - 1] == CommaList(types);
  }

  /** The live type of a manifest row, and its live name in a database. */
  function LiveObject(database: string, r: ManifestRow): Option<(string, string)> {
    var below := if r.objectType == "PROCEDURE" then LiveSignature(r.objectName) else CanonicalObject(r.objectName);
    if below.None? || LiveObjectType(r.objectType).None? then None
    else Some((LiveObjectType(r.objectType).value, database + ".APP." + below.value))
  }

  /** Only the database prefix of a live name depends on the database. */
  lemma LiveObjectMoves(a: string, b: string, r: ManifestRow)
    requires Without(a, '.') && Without(b, '.')
    ensures LiveObject(a, r).Some? <==> LiveObject(b, r).Some?
    ensures LiveObject(a, r).Some? ==>
              && LiveObject(a, r).value.0 == LiveObject(b, r).value.0
              && HasDot(LiveObject(a, r).value.1) && HasDot(LiveObject(b, r).value.1)
              && Container(LiveObject(a, r).value.1) == a && Container(LiveObject(b, r).value.1) == b
              && EnvironmentInvariantName(LiveObject(a, r).value.1)
                 == EnvironmentInvariantName(LiveObject(b, r).value.1)
  {
    hide LiveSignature, CanonicalObject, LiveObjectType, Container, EnvironmentInvariantName, HasDot;
    var below := if r.objectType == "PROCEDURE" then LiveSignature(r.objectName) else CanonicalObject(r.objectName);
    if below.Some? {
      var rest := "APP." + below.value;
      assert a + ".APP." + below.value == a + "." + rest && b + ".APP." + below.value == b + "." + rest;
      DotAfter(a, rest);
      DotAfter(b, rest);
    }
  }

  function RowGrants(database: string, r: ManifestRow): set<RoleGrant> {
    var live := LiveObject(database, r);
    if live.None? then {} else set p | p in r.privileges :: RoleGrant(p, live.value.0, live.value.1, r.roleName)
  }

  /** The object grants of a role, one for each privilege of each of its manifest rows. */
  ghost predicate IsObjectGrant(g: RoleGrant, manifest: set<ManifestRow>, database: string, role: string) {
    exists r :: r in manifest && r.roleName == role && g in RowGrants(database, r)
  }

  function ObjectGrants(manifest: set<ManifestRow>, database: string, role: string): (grants: set<RoleGrant>)
    ensures forall g :: g in grants <==> IsObjectGrant(g, manifest, database, role)
  {
    hide RowGrants;
    set r, g | r in manifest && r.roleName == role && g in RowGrants(database, r) :: g
  }

  predicate Transformable(r: ManifestRow, database: string) {
    LiveObject(database, r).Some? && (r.roleName == PUBLIC_WEB || r.roleName == ROASTPILOT_AGENT)
  }

  function SetOf(manifest: seq<ManifestRow>): set<ManifestRow> {
    set r | r in manifest
  }

  lemma ObjectGrantsAppend(manifest: seq<ManifestRow>, r: ManifestRow, database: string, role: string)
    ensures ObjectGrants(SetOf(manifest + [r]), database, role)
            == ObjectGrants(SetOf(manifest), database, role) + if r.roleName == role then RowGrants(database, r) else {}
  {
    hide RowGrants, ObjectGrants;
    forall g ensures IsObjectGrant(g, SetOf(manifest + [r]), database, role)
                     <==> IsObjectGrant(g, SetOf(manifest), database, role)
                          || (r.roleName == role && g in RowGrants(database, r))
    {
      assert forall x :: x in SetOf(manifest + [r]) <==> x in SetOf(manifest) || x == r;
    }
  }

  /** The object grants of both application roles; None where a row cannot be transformed or names another role. */
  method ObjectManifestRoleGrants(manifest: seq<ManifestRow>, database: string)
    returns (grants: Option<(set<RoleGrant>, set<RoleGrant>)>)
    ensures grants.Some? <==> forall i :: 0 <= i < |manifest| ==> Transformable(manifest[i], database)
    ensures grants.Some? ==>
              grants.value == (ObjectGrants(SetOf(manifest), database, PUBLIC_WEB),
                               ObjectGrants(SetOf(manifest), database, ROASTPILOT_AGENT))
  {
    hide ObjectGrants, RowGrants, LiveObject, SetOf;
    var web: set<RoleGrant>, agent: set<RoleGrant> := {}, {};
    NoGrants(database);
    assert manifest[..0] == [];
    for i := 0 to |manifest|
      invariant forall k :: 0 <= k < i ==> Transformable(manifest[k], database)
      invariant web == ObjectGrants(SetOf(manifest[..i]), database, PUBLIC_WEB)
      invariant agent == ObjectGrants(SetOf(manifest[..i]), database, ROASTPILOT_AGENT)
    {
      var r := manifest[i];
      assert manifest[..i + 1] == manifest[..i] + [r];
      ObjectGrantsAppend(manifest[..i], r, database, PUBLIC_WEB);
      ObjectGrantsAppend(manifest[..i], r, database, ROASTPILOT_AGENT);
      if LiveObject(database, r).None? { return None; }
      if r.roleName == PUBLIC_WEB {
        web := web + RowGrants(database, r);
      } else if r.roleName == ROASTPILOT_AGENT {
        agent := agent + RowGrants(database, r);
      } else {
        return None;
      }
    }
    assert manifest[..|manifest|] == manifest;
    grants := Some((web, agent));
  }

  lemma NoGrants(database: string)
    ensures ObjectGrants(SetOf([]), database, PUBLIC_WEB) == {} == ObjectGrants(SetOf([]), database, ROASTPILOT_AGENT)
  {
  }

  function Prerequisites(database: string, role: string): set<RoleGrant> {
    {RoleGrant("USAGE", "DATABASE", database, role), RoleGrant("USAGE", "SCHEMA", database + ".APP", role)}
  }

  function ExpectedRoleGrants(manifest: set<ManifestRow>, database: string, role: string): set<RoleGrant> {
    ObjectGrants(manifest, database, role) + Prerequisites(database, role)
  }

  // ----- The surface that is the same in every environment

  type Surface = (string, string, string)

  function SurfaceOf(g: RoleGrant): Surface {
    (g.privilege, g.objectType, EnvironmentInvariantName(g.name))
  }

  /** The web role's permitted surface, derived once from the development database. */
  function CrossEnvironmentAllowed(manifest: set<ManifestRow>): set<Surface> {
    (set g | g in ObjectGrants(manifest, EXPECTED_DATABASE, PUBLIC_WEB) :: SurfaceOf(g))
    + {("USAGE", "SCHEMA", EnvironmentInvariantName(EXPECTED_DATABASE + ".APP"))}
  }

  lemma DevIsDotFree()
    ensures Without(EXPECTED_DATABASE, '.')
  {
  }

  lemma SchemaSurface(database: string)
    requires Without(database, '.')
    ensures HasDot(database + ".APP") && Container(database + ".APP") == database
            && EnvironmentInvariantName(database + ".APP") == "APP"
  {
    assert database + ".APP" == database + "." + "APP";
    DotAfter(database, "APP");
  }

  lemma GrantMoves(manifest: set<ManifestRow>, a: string, b: string, role: string, g: RoleGrant)
    returns (moved: RoleGrant)
    requires Without(a, '.') && Without(b, '.') && IsObjectGrant(g, manifest, a, role)
    ensures IsObjectGrant(moved, manifest, b, role) && SurfaceOf(moved) == SurfaceOf(g) && HasDot(g.name)
            && HasDot(moved.name)
    ensures Container(g.name) == a && Container(moved.name) == b
    ensures moved.grantee == g.grantee == role
  {
    hide LiveObject, Container, EnvironmentInvariantName, HasDot;
    var r :| r in manifest && r.roleName == role && g in RowGrants(a, r);
    LiveObjectMoves(a, b, r);
    var live := LiveObject(b, r).value;
    moved := RoleGrant(g.privilege, live.0, live.1, role);
    assert moved in RowGrants(b, r);
  }

  /** In every dot-free database, the permitted surface is the expected qualified grants without their database. */
  lemma SurfaceIsEnvironmentInvariant(manifest: set<ManifestRow>, database: string, s: Surface)
    requires Without(database, '.')
    ensures s in CrossEnvironmentAllowed(manifest)
            <==> exists g ::
                   g in ExpectedRoleGrants(manifest, database, PUBLIC_WEB) && HasDot(g.name) && SurfaceOf(g) == s
  {
    hide IsObjectGrant, Container, EnvironmentInvariantName, HasDot, ObjectGrants;
    DevIsDotFree();
    SchemaSurface(EXPECTED_DATABASE);
    SchemaSurface(database);
    var schema := RoleGrant("USAGE", "SCHEMA", database + ".APP", PUBLIC_WEB);
    assert schema in ExpectedRoleGrants(manifest, database, PUBLIC_WEB)
           && SurfaceOf(schema) == ("USAGE", "SCHEMA", "APP");
    if s in CrossEnvironmentAllowed(manifest) {
      if s != ("USAGE", "SCHEMA", "APP") {
        var g :| g in ObjectGrants(manifest, EXPECTED_DATABASE, PUBLIC_WEB) && SurfaceOf(g) == s;
        var moved := GrantMoves(manifest, EXPECTED_DATABASE, database, PUBLIC_WEB, g);
        assert moved in ExpectedRoleGrants(manifest, database, PUBLIC_WEB);
      }
    }
    if g :| g in ExpectedRoleGrants(manifest, database, PUBLIC_WEB) && HasDot(g.name) && SurfaceOf(g) == s {
      NoDot(database);
      if g in ObjectGrants(manifest, database, PUBLIC_WEB) {
        var moved := GrantMoves(manifest, database, EXPECTED_DATABASE, PUBLIC_WEB, g);
        assert moved in ObjectGrants(manifest, EXPECTED_DATABASE, PUBLIC_WEB);
      }
    }
  }

  /** A qualified grant is expected in its own database exactly when its surface is permitted. */
  lemma SurfaceDecides(manifest: set<ManifestRow>, g: RoleGrant)
    requires HasDot(g.name) && g.grantee == PUBLIC_WEB
    ensures SurfaceOf(g) in CrossEnvironmentAllowed(manifest)
            <==> g in ExpectedRoleGrants(manifest, Container(g.name), PUBLIC_WEB)
  {
    hide IsObjectGrant, ObjectGrants, CrossEnvironmentAllowed, HasDot, Container, EnvironmentInvariantName;
    var database := Container(g.name);
    DotSplits(g.name);
    SurfaceIsEnvironmentInvariant(manifest, database, SurfaceOf(g));
    if SurfaceOf(g) in CrossEnvironmentAllowed(manifest) {
      var h :| h in ExpectedRoleGrants(manifest, database, PUBLIC_WEB) && HasDot(h.name)
        && SurfaceOf(h) == SurfaceOf(g);
      ExpectedInItsDatabase(manifest, database, h);
      DotSplits(h.name);
      assert h == g;
    }
  }

  lemma ExpectedInItsDatabase(manifest: set<ManifestRow>, database: string, h: RoleGrant)
    requires Without(database, '.') && h in ExpectedRoleGrants(manifest, database, PUBLIC_WEB)
    ensures Container(h.name) == database && h.grantee == PUBLIC_WEB
  {
    hide IsObjectGrant, ObjectGrants, Container, EnvironmentInvariantName, HasDot;
    NoDot(database);
    SchemaSurface(database);
    if h in ObjectGrants(manifest, database, PUBLIC_WEB) {
      var moved := GrantMoves(manifest, database, database, PUBLIC_WEB, h);
    }
  }
}

/** What the role audits read from a row, and when they report it, written out. */
module RoleAnchors {
  import opened Wrappers
  import opened Sequences
  import opened Splitting
  import opened SqlText
  import opened GrantGrammar
  import opened GrantManifest
  import opened LiveGrants
  import RoleAudit
  import SeedPrincipal

  // ----- Reading a row

  /** Spaces around the vocabulary and its case are ignored; identifiers are kept to the byte. */
  lemma GrantReads(row: LiveRow, a: string, privilege: string, b: string, c: string, objectType: string, d: string)
    requires Spaces(a) && Spaces(b) && Spaces(c) && Spaces(d) && Trimmed(privilege) && Trimmed(objectType)
    requires row.privilege == a + privilege + b && row.grantedOn == c + objectType + d
    ensures GrantOf(row) == RoleGrant(Upper(privilege), Upper(objectType), row.name, row.granteeName)
  {
    hide Strip, Spaces, Trimmed, Upper;
    StripIs(a, privilege, b);
    StripIs(c, objectType, d);
  }

  /** A text of spaces alone, or of none, strips to nothing; any other has a core that stays. */
  lemma StripExactly(s: string)
    ensures Strip(s) == "" <==> Spaces(s)
    ensures !Spaces(s) ==> Trimmed(Strip(s)) && exists a, b :: Spaces(a) && Spaces(b) && s == a + Strip(s) + b
  {
    hide IsSpace;
    var k := Lead(IsSpace, s);
    var tail := s[k..];
    var n := |tail| - Trail(IsSpace, tail);
    assert s == s[..k] + tail[..n] + tail[n..];
    assert Spaces(s[..k]) && Spaces(tail[n..]);
    if k < |s| {
      assert !IsSpace(tail[0]);
      assert n > 0;
    }
  }

  // ----- From the manifest to live grants

  lemma LiveArgumentExactly(offline: string, live: string)
    ensures LiveArgument(offline) == Some(live)
            <==> (offline == "string" && live == "VARCHAR") || (offline in {"int", "smallint"} && live == "NUMBER")
  {
  }

  lemma CanonicalExactly(offline: string, live: string)
    ensures CanonicalObject(offline) == Some(live)
            <==> exists name :: Without(name, '.') && offline == "app." + name && live == Upper(name)
  {
    hide Upper;
    if CanonicalObject(offline) == Some(live) {
      var k := HeadLength(offline, '.');
      assert offline == offline[..k] + [offline[k]] + offline[k + 1..];
      assert "app" + ['.'] + offline[k + 1..] == "app." + offline[k + 1..];
    }
    if name :| Without(name, '.') && offline == "app." + name && live == Upper(name) {
      assert offline == "app" + ['.'] + name;
      PartitionAt("app", '.', name);
    }
  }

  /** An object's live grants: each privilege, on the same type of object, under its name in capitals. */
  lemma ObjectRowGrants(database: string, r: ManifestRow, name: string)
    requires r.objectType in {"TABLE", "VIEW", "STAGE"} && Without(name, '.') && r.objectName == "app." + name
    ensures RowGrants(database, r)
            == set p | p in r.privileges :: RoleGrant(p, r.objectType, database + ".APP." + Upper(name), r.roleName)
  {
    hide Upper, CanonicalObject;
    CanonicalExactly(r.objectName, Upper(name));
    assert !HasSpace(r.objectType);
  }

  /** A file format is reported with an underscore in its type. */
  lemma FileFormatRowGrants(database: string, r: ManifestRow, name: string)
    requires r.objectType == "FILE FORMAT" && Without(name, '.') && r.objectName == "app." + name
    ensures RowGrants(database, r)
            == set p | p in r.privileges :: RoleGrant(p, "FILE_FORMAT", database + ".APP." + Upper(name), r.roleName)
  {
    hide Upper, CanonicalObject;
    CanonicalExactly(r.objectName, Upper(name));
  }

  /** A procedure is reported with its signature. */
  lemma ProcedureRowGrants(database: string, r: ManifestRow, procedure: string, types: seq<string>)
    requires Without(procedure, '(') && types != [] && KnownTypes(types)
    requires r.objectType == "PROCEDURE" && r.objectName == "app." + procedure + "(" + CommaList(types) + ")"
    ensures RowGrants(database, r)
            == set p | p in r.privileges ::
                 RoleGrant(p, "PROCEDURE",
                           database + ".APP." + (Upper(procedure) + "(" + CommaList(LiveTypes(types)) + ")"),
                           r.roleName)
  {
    hide Upper, CommaList, LiveTypes, LiveSignature, KnownTypes;
    SignatureTransforms(procedure, types);
    assert !HasSpace(r.objectType);
  }

  /** The signature of the roast upload, live. */
  lemma UpsertSignature()
    ensures LiveSignature("app.upsert_roast(string, string)") == Some("UPSERT_ROAST(VARCHAR, VARCHAR)")
  {
    hide LiveSignature, Upper, CommaList, LiveTypes;
    var types := ["string", "string"];
    TwoStrings();
    SignatureTransforms("upsert_roast", types);
    UpsertUpper();
    assert "app." + "upsert_roast" + "(" + "string, string" + ")" == "app.upsert_roast(string, string)";
    assert "UPSERT_ROAST" + "(" + "VARCHAR, VARCHAR" + ")" == "UPSERT_ROAST(VARCHAR, VARCHAR)";
  }

  lemma TwoStrings()
    ensures KnownTypes(["string", "string"]) && CommaList(["string", "string"]) == "string, string"
    ensures CommaList(LiveTypes(["string", "string"])) == "VARCHAR, VARCHAR"
  {
    var types := ["string", "string"];
    assert types[1..] == ["string"];
    assert LiveTypes(["string"]) == ["VARCHAR"];
    assert LiveTypes(types) == ["VARCHAR", "VARCHAR"];
    assert ["VARCHAR", "VARCHAR"][1..] == ["VARCHAR"];
  }

  lemma UpsertUpper()
    ensures Upper("upsert_roast") == "UPSERT_ROAST"
  {
  }

  /** The prerequisites of a role in a database: usage of it and of its application schema, and no more. */
  lemma PrerequisitesExactly(database: string, role: string, g: RoleGrant)
    ensures g in Prerequisites(database, role)
            <==> && g.privilege == "USAGE" && g.grantee == role
                 && ((g.objectType == "DATABASE" && g.name == database)
                     || (g.objectType == "SCHEMA" && g.name == database + "." + "APP"))
  {
    assert database + "." + "APP" == database + ".APP";
  }

  /** Every object type of the manifest but WAREHOUSE becomes one that the audit knows to live in a database. */
  lemma ManifestTypesKnown(objectType: string)
    requires objectType in ALLOWED_OBJECT_TYPES
    ensures LiveObjectType(objectType).Some?
    ensures LiveObjectType(objectType).value in RoleAudit.DATABASE_SCOPED_TYPES <==> objectType != "WAREHOUSE"
    ensures LiveObjectType(objectType).value == objectType <==> objectType != "FILE FORMAT"
  {
    assert objectType != "FILE FORMAT" ==> !HasSpace(objectType);
  }

  /** The live spelling of an offline type: an underscore in the two known pairs of words, none for other spaces. */
  lemma LiveTypeExactly(offline: string, live: string)
    ensures LiveObjectType(offline) == Some(live)
            <==> || (offline == "FILE FORMAT" && live == "FILE_FORMAT")
                 || (offline == "MATERIALIZED VIEW" && live == "MATERIALIZED_VIEW")
                 || (' ' !in offline && live == offline)
  {
    assert "FILE FORMAT"[4] == ' ' && "MATERIALIZED VIEW"[12] == ' ';
  }

  // ----- The verdict on a row outside the container

  /**
   * Usage of another database: the web role may have it, without option, in the three environments and nowhere else.
   */
  lemma WebDatabasesExactly(row: LiveRow, s: RoleAudit.Scope)
    requires s.role == "PUBLIC_WEB" && GrantOf(row).objectType == "DATABASE" && !HasDot(row.name)
    ensures RoleAudit.PermittedElsewhere(row, s)
            <==> && row.name in {"ROASTPILOT_DEV", "ROASTPILOT_PREVIEW", "ROASTPILOT"}
                 && GrantOf(row).privilege == "USAGE" && OptionIsFalse(row.grantOption)
  {
    hide OptionIsFalse, HasDot, Container, SurfaceOf;
  }

  /** The agent role may hold anything on the qualified objects of other databases, if their type is known. */
  lemma AgentElsewhereExactly(row: LiveRow, s: RoleAudit.Scope)
    requires s.role == "ROASTPILOT_AGENT" && HasDot(row.name)
    requires GrantOf(row).objectType !in {"WAREHOUSE", "DATABASE"}
    ensures RoleAudit.PermittedElsewhere(row, s)
            <==> GrantOf(row).objectType
                 in {"SCHEMA", "TABLE", "VIEW", "MATERIALIZED_VIEW", "STAGE", "FILE_FORMAT", "SEQUENCE", "PROCEDURE",
                     "FUNCTION", "STREAM", "TASK", "PIPE"}
  {
    hide OptionIsFalse, HasDot, Container, SurfaceOf, Strip, Upper;
  }

  lemma VerdictExact(row: LiveRow, s: RoleAudit.Scope)
    ensures var g, verdict := GrantOf(row), RoleAudit.Classify(row, s);
            var reported := Container(row.name) != s.database && !RoleAudit.PermittedElsewhere(row, s);
            var known := && s.role == "PUBLIC_WEB" && g.objectType in RoleAudit.DATABASE_SCOPED_TYPES && g.name != ""
                         && (g.objectType == "DATABASE" <==> !HasDot(g.name));
            && (verdict == RoleAudit.UnexpectedWarehouse <==> reported && g.objectType == "WAREHOUSE")
            && (verdict == RoleAudit.UnexpectedPublicWeb <==> reported && known)
            && (verdict == RoleAudit.Unexpected <==> reported && g.objectType != "WAREHOUSE" && !known)
  {
    hide RoleAudit.ENVIRONMENT_DATABASES, GrantOf, OptionIsFalse, HasDot, Container, SurfaceOf;
    hide RoleAudit.DATABASE_SCOPED_TYPES;
    RoleAudit.WarehouseIsNoObject();
    EmptyHasNoDot();
    DatabaseIsKnown();
  }

  lemma EmptyHasNoDot()
    ensures !HasDot("")
  {
  }

  lemma DatabaseIsKnown()
    ensures "DATABASE" in RoleAudit.DATABASE_SCOPED_TYPES
  {
  }

  // ----- What the role audit reports

  lemma {:induction false} OutsideReported(rows: seq<LiveRow>, s: RoleAudit.Scope, v: RoleAudit.Violation)
    ensures v in RoleAudit.OutsideViolations(rows, s)
            <==> exists i :: 0 <= i < |rows| && RoleAudit.IsBad(rows[i], s)
                   && v == RoleAudit.Outside(RoleAudit.Classify(rows[i], s), GrantOf(rows[i]))
  {
    hide RoleAudit.Classify, RoleAudit.IsBad, GrantOf;
    if rows != [] { OutsideReported(rows[..|rows| - 1], s, v); }
  }

  lemma {:induction false} ExtraReported(inScope: seq<LiveRow>, expected: seq<RoleGrant>, v: RoleAudit.Violation)
    ensures v in RoleAudit.ExtraViolations(inScope, expected)
            <==> exists i :: 0 <= i < |inScope| && !RoleAudit.Matches(inScope[i], expected)
                   && v == RoleAudit.Extra(GrantOf(inScope[i]))
  {
    hide RoleAudit.Matches, GrantOf;
    if inScope != [] { ExtraReported(inScope[..|inScope| - 1], expected, v); }
  }

  lemma {:induction false} MissingReported(inScope: seq<LiveRow>, expected: seq<RoleGrant>, deferred: set<RoleGrant>,
                                           v: RoleAudit.Violation)
    ensures v in RoleAudit.MissingViolations(inScope, expected, deferred)
            <==> exists i :: 0 <= i < |expected| && expected[i] !in deferred && !RoleAudit.Held(inScope, expected[i])
                   && v == RoleAudit.Missing(expected[i])
  {
    hide RoleAudit.Held;
    if expected != [] { MissingReported(inScope, expected[..|expected| - 1], deferred, v); }
  }

  /** A grant is reported missing when it is expected, may not be deferred and is held by no row of the container. */
  lemma MissingExactly(rows: seq<LiveRow>, expected: seq<RoleGrant>, s: RoleAudit.Scope, deferred: set<RoleGrant>,
                       g: RoleGrant)
    ensures RoleAudit.Missing(g) in RoleAudit.AuditViolations(rows, expected, s, deferred)
            <==> g in expected && g !in deferred && !RoleAudit.Granted(rows, s, g)
  {
    hide RoleAudit.OutsideViolations, RoleAudit.ExtraViolations, RoleAudit.MissingViolations, RoleAudit.Held,
      RoleAudit.Granted, RoleAudit.InScopeRows, RoleAudit.IsBad, RoleAudit.Matches, RoleAudit.Classify, GrantOf;
    var inScope := RoleAudit.InScopeRows(rows, s);
    OutsideReported(rows, s, RoleAudit.Missing(g));
    ExtraReported(inScope, expected, RoleAudit.Missing(g));
    MissingReported(inScope, expected, deferred, RoleAudit.Missing(g));
    RoleAudit.HeldIsGranted(rows, s, g);
  }

  /** A grant is reported extra when a row of the container holds it with an option, or it is not expected at all. */
  lemma ExtraExactly(rows: seq<LiveRow>, expected: seq<RoleGrant>, s: RoleAudit.Scope, deferred: set<RoleGrant>,
                     g: RoleGrant)
    ensures RoleAudit.Extra(g) in RoleAudit.AuditViolations(rows, expected, s, deferred)
            <==> exists row :: row in rows && Container(row.name) == s.database && GrantOf(row) == g
                   && (!OptionIsFalse(row.grantOption) || g !in expected)
  {
    hide RoleAudit.OutsideViolations, RoleAudit.ExtraViolations, RoleAudit.MissingViolations, RoleAudit.Held,
      RoleAudit.InScopeRows, RoleAudit.IsBad, RoleAudit.Classify, GrantOf, OptionIsFalse, Container;
    var inScope := RoleAudit.InScopeRows(rows, s);
    OutsideReported(rows, s, RoleAudit.Extra(g));
    ExtraReported(inScope, expected, RoleAudit.Extra(g));
    MissingReported(inScope, expected, deferred, RoleAudit.Extra(g));
    forall row ensures row in inScope <==> row in rows && Container(row.name) == s.database {
      RoleAudit.InScopeMembers(rows, s, row);
    }
  }

  // ----- The seed role's rows

  /** The vocabulary of a row is there: no field is blank. */
  predicate Filled(row: LiveRow) {
    !Spaces(row.privilege) && !Spaces(row.grantedOn) && row.name != "" && row.granteeName != ""
  }

  predicate ToRole(row: LiveRow) {
    Upper(Strip(row.grantedTo)) == "ROLE"
  }

  predicate OnRole(row: LiveRow) {
    Upper(Strip(row.grantedOn)) == "ROLE"
  }

  /** The role's own usage of itself, without grant option. */
  predicate OwnUsage(row: LiveRow) {
    && Upper(Strip(row.privilege)) == "USAGE" && row.name == row.granteeName == "ROASTPILOT_VERIFY_SEED"
    && OptionIsFalse(row.grantOption)
  }

  /** Each verdict on a row of the seed role, by conditions on the row that exclude each other. */
  lemma SeedVerdictExact(row: LiveRow)
    ensures SeedPrincipal.Classify(row) == SeedPrincipal.Malformed <==> !Filled(row)
    ensures SeedPrincipal.Classify(row) == SeedPrincipal.WrongGrantee <==> Filled(row) && !ToRole(row)
    ensures SeedPrincipal.Classify(row) == SeedPrincipal.SelfEdge
            <==> Filled(row) && ToRole(row) && OnRole(row) && OwnUsage(row)
    ensures SeedPrincipal.Classify(row) == SeedPrincipal.Inherited
            <==> Filled(row) && ToRole(row) && OnRole(row) && !OwnUsage(row)
    ensures SeedPrincipal.Plain(row)
            <==> Filled(row) && ToRole(row) && !OnRole(row) && OptionIsFalse(row.grantOption)
  {
    hide Strip, Spaces, OptionIsFalse;
    StripExactly(row.privilege);
    StripExactly(row.grantedOn);
  }

  /** The rows a seed audit compares are all rows but the self edges, in order. */
  lemma {:induction false} WithoutSelfEdgesFilters(rows: seq<LiveRow>)
    ensures SeedPrincipal.WithoutSelfEdges(rows)
            == Filter((row: LiveRow) => !(Filled(row) && ToRole(row) && OnRole(row) && OwnUsage(row)), rows)
  {
    hide SeedPrincipal.Classify, Filled, ToRole, OnRole, OwnUsage;
    if rows != [] {
      WithoutSelfEdgesFilters(rows[..|rows| - 1]);
      SeedVerdictExact(rows[|rows| - 1]);
    }
  }

  /** The roles a user audit counts are all roles but blank ones and PUBLIC, in order. */
  lemma {:induction false} NonPublicFilters(roles: seq<string>)
    ensures SeedPrincipal.NonPublic(roles) == Filter((role: string) => role != "" && role != "PUBLIC", roles)
  {
    if roles != [] { NonPublicFilters(roles[..|roles| - 1]); }
  }

  const SEED_TABLES := {"ROASTPILOT_DEV.APP.CLOUD_ROASTS", "ROASTPILOT_DEV.APP.ROAST_TELEMETRY",
                        "ROASTPILOT_DEV.APP.ROAST_ARTIFACTS", "ROASTPILOT_DEV.APP.REFERENCE_ROAST_SUMMARIES"}

  /** What the seed role may do to a table: read and delete all four, insert two of them, update one. */
  predicate SeedMay(privilege: string, table: string) {
    || (table in SEED_TABLES && privilege in {"SELECT", "DELETE"})
    || (table == "ROASTPILOT_DEV.APP.CLOUD_ROASTS" && privilege in {"INSERT", "UPDATE"})
    || (table == "ROASTPILOT_DEV.APP.ROAST_TELEMETRY" && privilege == "INSERT")
  }

  predicate SeedUses(objectType: string, name: string) {
    || (objectType == "DATABASE" && name == "ROASTPILOT_DEV")
    || (objectType == "SCHEMA" && name == "ROASTPILOT_DEV.APP")
    || (objectType == "WAREHOUSE" && name == "ROASTPILOT_WH")
  }

  predicate SeedAllows(g: RoleGrant) {
    && g.grantee == "ROASTPILOT_VERIFY_SEED"
    && (|| (g.privilege == "USAGE" && SeedUses(g.objectType, g.name))
        || (g.objectType == "TABLE" && SeedMay(g.privilege, g.name)))
  }

  lemma UsageExpected(k: nat)
    requires k < 3
    ensures SeedAllows(SeedPrincipal.GrantFor(SeedPrincipal.EXPECTED[k]))
  {
    hide SeedMay;
  }

  lemma TableExpected(k: nat)
    requires 3 <= k < |SeedPrincipal.EXPECTED|
    ensures SeedAllows(SeedPrincipal.GrantFor(SeedPrincipal.EXPECTED[k]))
  {
    hide SeedUses;
  }

  /** Where an allowed grant is listed. */
  function UsageAt(objectType: string): nat {
    if objectType == "DATABASE" then 0 else if objectType == "SCHEMA" then 1 else 2
  }

  function TableAt(privilege: string, table: string): nat {
    if table == "ROASTPILOT_DEV.APP.CLOUD_ROASTS" then
      if privilege == "INSERT" then 3 else if privilege == "UPDATE" then 4 else if privilege == "DELETE" then 5 else 10
    else if table == "ROASTPILOT_DEV.APP.ROAST_TELEMETRY" then
      if privilege == "INSERT" then 6 else if privilege == "DELETE" then 7 else 11
    else if table == "ROASTPILOT_DEV.APP.ROAST_ARTIFACTS" then if privilege == "DELETE" then 8 else 12
    else if privilege == "DELETE" then 9 else 13
  }

  lemma UsageListed(g: RoleGrant)
    requires SeedAllows(g) && g.privilege == "USAGE" && SeedUses(g.objectType, g.name)
    ensures g == SeedPrincipal.GrantFor(SeedPrincipal.EXPECTED[UsageAt(g.objectType)])
  {
    hide SeedMay;
  }

  lemma TableListed(g: RoleGrant)
    requires g.grantee == "ROASTPILOT_VERIFY_SEED" && g.objectType == "TABLE" && SeedMay(g.privilege, g.name)
    ensures TableAt(g.privilege, g.name) < |SeedPrincipal.EXPECTED|
    ensures g == SeedPrincipal.GrantFor(SeedPrincipal.EXPECTED[TableAt(g.privilege, g.name)])
  {
  }

  /** The seed role's expected grants are exactly those that allow what it may do. */
  lemma ExpectedSeedExactly(g: RoleGrant)
    ensures g in SeedPrincipal.ExpectedSeedRoleGrants() <==> SeedAllows(g)
  {
    hide SeedMay, SeedUses, TableAt, UsageAt, SeedPrincipal.GrantFor;
    var e, grants := SeedPrincipal.EXPECTED, SeedPrincipal.ExpectedSeedRoleGrants();
    if g in grants {
      var k :| 0 <= k < |grants| && grants[k] == g;
      assert g == SeedPrincipal.GrantFor(e[k]);
      if k < 3 { UsageExpected(k); } else { TableExpected(k); }
    }
    if SeedAllows(g) {
      if g.privilege == "USAGE" && SeedUses(g.objectType, g.name) {
        UsageListed(g);
        UsageAtMost(g.objectType);
        assert grants[UsageAt(g.objectType)] == g;
      } else {
        TableListed(g);
        assert grants[TableAt(g.privilege, g.name)] == g;
      }
    }
  }

  lemma UsageAtMost(objectType: string)
    ensures UsageAt(objectType) < 3
  {
  }

  lemma {:induction false} CountReported(observed: seq<LiveRow>, expected: seq<RoleGrant>, v: SeedPrincipal.Violation)
    ensures v in SeedPrincipal.Miscounted(observed, expected)
            <==> exists i :: 0 <= i < |expected|
                   && v == (if SeedPrincipal.CountOf(observed, expected[i]) == 0
                            then SeedPrincipal.Missing(expected[i])
                            else SeedPrincipal.Duplicate(expected[i]))
                   && SeedPrincipal.CountOf(observed, expected[i]) != 1
  {
    hide SeedPrincipal.CountOf;
    if expected != [] { CountReported(observed, expected[..|expected| - 1], v); }
  }

  /** The seed audit reports an expected grant missing when no row holds it, and duplicate when several do. */
  lemma SeedCountsExactly(observed: seq<LiveRow>, expected: seq<RoleGrant>, g: RoleGrant)
    ensures SeedPrincipal.Missing(g) in SeedPrincipal.Miscounted(observed, expected)
            <==> g in expected && SeedPrincipal.CountOf(observed, g) == 0
    ensures SeedPrincipal.Duplicate(g) in SeedPrincipal.Miscounted(observed, expected)
            <==> g in expected && SeedPrincipal.CountOf(observed, g) >= 2
  {
    hide SeedPrincipal.CountOf, SeedPrincipal.Miscounted;
    CountReported(observed, expected, SeedPrincipal.Missing(g));
    CountReported(observed, expected, SeedPrincipal.Duplicate(g));
  }

  lemma {:induction false} RolesReported(roles: seq<string>, expected: string, v: SeedPrincipal.UserViolation)
    ensures v in SeedPrincipal.RoleViolations(roles, expected)
            <==> || (v == SeedPrincipal.BlankRole && "" in roles)
                 || exists role :: role in roles && role != "" && role != "PUBLIC" && role != expected
                      && v == SeedPrincipal.UnexpectedRole(role)
  {
    if roles != [] {
      var init, last := roles[..|roles| - 1], roles[|roles| - 1];
      assert roles == init + [last];
      RolesReported(init, expected, v);
    }
  }
}

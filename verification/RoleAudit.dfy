/** The exact-set audit of an application role's live grants. */
module RoleAudit {
  import opened Wrappers
  import opened Sequences
  import opened Splitting
  import opened SqlText
  import opened GrantManifest
  import opened LiveGrants

  const DATABASE_SCOPED_TYPES := {
    "DATABASE", "SCHEMA", "TABLE", "VIEW", "MATERIALIZED_VIEW", "STAGE", "FILE_FORMAT", "SEQUENCE", "PROCEDURE",
    "FUNCTION",
    "STREAM", "TASK", "PIPE"}

  const ENVIRONMENT_DATABASES := {"ROASTPILOT_DEV", "ROASTPILOT_PREVIEW", "ROASTPILOT"}

  /** What one audit compares against. */
  datatype Scope = Scope(role: string, database: string, warehouses: set<string>, surface: set<Surface>)

  datatype Verdict = InScope | Allowed | UnexpectedWarehouse | UnexpectedPublicWeb | Unexpected

  predicate InContainer(row: LiveRow, s: Scope) {
    Container(row.name) == s.database
  }

  /** The chain of cases a row is put through, in order. */
  function Classify(row: LiveRow, s: Scope): Verdict {
    var g, optionFalse := GrantOf(row), OptionIsFalse(row.grantOption);
    if InContainer(row, s) then InScope
    else if g.objectType == "WAREHOUSE" && g.privilege == "USAGE" && optionFalse && g.name in s.warehouses then Allowed
    else if g.objectType == "WAREHOUSE" then UnexpectedWarehouse
    else if g.objectType == "DATABASE" && g.name != "" && !HasDot(g.name) then
      if s.role == PUBLIC_WEB && (g.name !in ENVIRONMENT_DATABASES || g.privilege != "USAGE" || !optionFalse)
      then UnexpectedPublicWeb else Allowed
    else if g.objectType in DATABASE_SCOPED_TYPES && g.objectType != "DATABASE" && HasDot(g.name) then
      if s.role == PUBLIC_WEB
         && (Container(g.name) !in ENVIRONMENT_DATABASES || SurfaceOf(g) !in s.surface || !optionFalse)
      then UnexpectedPublicWeb else Allowed
    else Unexpected
  }

  datatype Violation = Outside(verdict: Verdict, grant: RoleGrant) | Extra(grant: RoleGrant) | Missing(grant: RoleGrant)

  predicate IsBad(row: LiveRow, s: Scope) {
    Classify(row, s) != InScope && Classify(row, s) != Allowed
  }

  function OutsideViolations(rows: seq<LiveRow>, s: Scope): seq<Violation> {
    if rows == [] then [] else
      var last := rows[|rows| - 1];
      OutsideViolations(rows[..|rows| - 1], s)
      + if IsBad(last, s) then [Outside(Classify(last, s), GrantOf(last))] else []
  }

  function InScopeRows(rows: seq<LiveRow>, s: Scope): seq<LiveRow> {
    Filter((row: LiveRow) => Classify(row, s) == InScope, rows)
  }

  /** An in-scope row that is expected and carries no grant option. */
  predicate Matches(row: LiveRow, expected: seq<RoleGrant>) {
    OptionIsFalse(row.grantOption) && GrantOf(row) in expected
  }

  function ExtraViolations(inScope: seq<LiveRow>, expected: seq<RoleGrant>): seq<Violation> {
    if inScope == [] then [] else
      var last := inScope[|inScope| - 1];
      ExtraViolations(inScope[..|inScope| - 1], expected)
      + if Matches(last, expected) then [] else [Extra(GrantOf(last))]
  }

  predicate Held(inScope: seq<LiveRow>, g: RoleGrant) {
    exists i :: 0 <= i < |inScope| && OptionIsFalse(inScope[i].grantOption) && GrantOf(inScope[i]) == g
  }

  /** The expected grants that no in-scope row holds, deferred ones left out. */
  function MissingViolations(inScope: seq<LiveRow>, expected: seq<RoleGrant>, deferred: set<RoleGrant>): seq<Violation>
  {
    if expected == [] then [] else
      var last := expected[|expected| - 1];
      MissingViolations(inScope, expected[..|expected| - 1], deferred)
      + if last !in deferred && !Held(inScope, last) then [Missing(last)] else []
  }

  function AuditViolations(rows: seq<LiveRow>, expected: seq<RoleGrant>, s: Scope, deferred: set<RoleGrant>)
      : seq<Violation>
  {
    var inScope := InScopeRows(rows, s);
    OutsideViolations(rows, s) + ExtraViolations(inScope, expected) + MissingViolations(inScope, expected, deferred)
  }

  /** `expected` lists the expected set in sorted order. */
  method FindRoleManifestViolations(rows: seq<LiveRow>, expected: seq<RoleGrant>, s: Scope, deferred: set<RoleGrant>)
    returns (violations: seq<Violation>)
    ensures violations == AuditViolations(rows, expected, s, deferred)
  {
    hide Classify, Matches, Held;
    var inScope: seq<LiveRow> := [];
    violations := [];
    for i := 0 to |rows|
      invariant inScope == InScopeRows(rows[..i], s) && violations == OutsideViolations(rows[..i], s)
    {
      assert rows[..i + 1][..i] == rows[..i];
      var verdict := Classify(rows[i], s);
      if verdict == InScope {
        inScope := inScope + [rows[i]];
      } else if verdict != Allowed {
        violations := violations + [Outside(verdict, GrantOf(rows[i]))];
      }
    }
    assert rows[..|rows|] == rows;
    ghost var outside := violations;
    for i := 0 to |inScope|
      invariant violations == outside + ExtraViolations(inScope[..i], expected)
    {
      assert inScope[..i + 1][..i] == inScope[..i];
      if !Matches(inScope[i], expected) { violations := violations + [Extra(GrantOf(inScope[i]))]; }
    }
    assert inScope[..|inScope|] == inScope;
    ghost var before := violations;
    for i := 0 to |expected|
      invariant violations == before + MissingViolations(inScope, expected[..i], deferred)
    {
      assert expected[..i + 1][..i] == expected[..i];
      if expected[i] !in deferred && !Held(inScope, expected[i]) { violations := violations + [Missing(expected[i])]; }
    }
    assert expected[..|expected|] == expected;
  }

  // ----- When the audit is clean

  /** The permitted classes of rows outside the container; their object types exclude each other. */
  predicate PermittedElsewhere(row: LiveRow, s: Scope) {
    var g, optionFalse := GrantOf(row), OptionIsFalse(row.grantOption);
    || (g.objectType == "WAREHOUSE" && g.privilege == "USAGE" && optionFalse && g.name in s.warehouses)
    || (&& g.objectType == "DATABASE" && g.name != "" && !HasDot(g.name)
        && (s.role == PUBLIC_WEB ==> g.name in ENVIRONMENT_DATABASES && g.privilege == "USAGE" && optionFalse))
    || (&& g.objectType in DATABASE_SCOPED_TYPES && g.objectType != "DATABASE" && HasDot(g.name)
        && (s.role == PUBLIC_WEB ==>
            Container(g.name) in ENVIRONMENT_DATABASES && SurfaceOf(g) in s.surface && optionFalse))
  }

  lemma WarehouseIsNoObject()
    ensures "WAREHOUSE" !in DATABASE_SCOPED_TYPES
  {
  }

  lemma ClassifyExact(row: LiveRow, s: Scope)
    ensures Classify(row, s) == InScope <==> InContainer(row, s)
    ensures Classify(row, s) == Allowed <==> !InContainer(row, s) && PermittedElsewhere(row, s)
  {
    hide DATABASE_SCOPED_TYPES, ENVIRONMENT_DATABASES, GrantOf, OptionIsFalse, HasDot, Container, SurfaceOf;
    WarehouseIsNoObject();
  }

  lemma {:induction false} OutsideClean(rows: seq<LiveRow>, s: Scope)
    ensures OutsideViolations(rows, s) == [] <==> forall i :: 0 <= i < |rows| ==> !IsBad(rows[i], s)
  {
    hide IsBad;
    if rows != [] { OutsideClean(rows[..|rows| - 1], s); }
  }

  lemma {:induction false} ExtraClean(inScope: seq<LiveRow>, expected: seq<RoleGrant>)
    ensures ExtraViolations(inScope, expected) == []
            <==> forall i :: 0 <= i < |inScope| ==> Matches(inScope[i], expected)
  {
    hide Matches;
    if inScope != [] { ExtraClean(inScope[..|inScope| - 1], expected); }
  }

  lemma {:induction false} MissingClean(inScope: seq<LiveRow>, expected: seq<RoleGrant>, deferred: set<RoleGrant>)
    ensures MissingViolations(inScope, expected, deferred) == []
            <==> forall i :: 0 <= i < |expected| ==> expected[i] in deferred || Held(inScope, expected[i])
  {
    hide Held;
    if expected != [] { MissingClean(inScope, expected[..|expected| - 1], deferred); }
  }

  /** Some in-container row holds exactly this grant, without grant option. */
  predicate Granted(rows: seq<LiveRow>, s: Scope, g: RoleGrant) {
    exists i :: 0 <= i < |rows| && InContainer(rows[i], s) && OptionIsFalse(rows[i].grantOption)
      && GrantOf(rows[i]) == g
  }

  lemma InScopeMembers(rows: seq<LiveRow>, s: Scope, row: LiveRow)
    ensures row in InScopeRows(rows, s) <==> row in rows && InContainer(row, s)
  {
    hide Classify, InContainer;
    ClassifyExact(row, s);
  }

  lemma HeldIsGranted(rows: seq<LiveRow>, s: Scope, g: RoleGrant)
    ensures Held(InScopeRows(rows, s), g) <==> Granted(rows, s, g)
  {
    hide InScopeRows, InContainer, OptionIsFalse, GrantOf;
    var inScope := InScopeRows(rows, s);
    if Held(inScope, g) {
      var i :| 0 <= i < |inScope| && OptionIsFalse(inScope[i].grantOption) && GrantOf(inScope[i]) == g;
      InScopeMembers(rows, s, inScope[i]);
    }
    if Granted(rows, s, g) {
      var i :| 0 <= i < |rows| && InContainer(rows[i], s) && OptionIsFalse(rows[i].grantOption)
        && GrantOf(rows[i]) == g;
      InScopeMembers(rows, s, rows[i]);
    }
  }

  /**
   * The audit is clean exactly when every row in the container is expected and without grant option, every
   * expected grant that is not deferred is there, and every other row is in a permitted class.
   */
  lemma AuditCleanExactly(rows: seq<LiveRow>, expected: seq<RoleGrant>, s: Scope, deferred: set<RoleGrant>)
    ensures AuditViolations(rows, expected, s, deferred) == []
            <==> && (forall row :: row in rows && InContainer(row, s) ==>
                     OptionIsFalse(row.grantOption) && GrantOf(row) in expected)
                 && (forall row :: row in rows && !InContainer(row, s) ==> PermittedElsewhere(row, s))
                 && (forall g :: g in expected && g !in deferred ==> Granted(rows, s, g))
  {
    hide Classify, InContainer, PermittedElsewhere, InScopeRows, Granted, Held, OptionIsFalse, GrantOf,
      OutsideViolations, ExtraViolations, MissingViolations;
    var inScope := InScopeRows(rows, s);
    OutsideClean(rows, s);
    ExtraClean(inScope, expected);
    MissingClean(inScope, expected, deferred);
    forall row ensures row in inScope <==> row in rows && InContainer(row, s) { InScopeMembers(rows, s, row); }
    forall row ensures IsBad(row, s) <==> !InContainer(row, s) && !PermittedElsewhere(row, s) { ClassifyExact(row, s); }
    forall g ensures Held(inScope, g) <==> Granted(rows, s, g) { HeldIsGranted(rows, s, g); }
    assert (forall i :: 0 <= i < |inScope| ==> Matches(inScope[i], expected))
           <==> forall row :: row in inScope ==> Matches(row, expected);
    assert (forall i :: 0 <= i < |rows| ==> !IsBad(rows[i], s)) <==> forall row :: row in rows ==> !IsBad(row, s);
  }

  // ----- Two phases

  /** The expected grants among the deferred ones that no row holds. */
  function MissingDeferred(inScope: seq<LiveRow>, expected: seq<RoleGrant>, deferred: set<RoleGrant>): seq<Violation> {
    if expected == [] then [] else
      var last := expected[|expected| - 1];
      MissingDeferred(inScope, expected[..|expected| - 1], deferred)
      + if last in deferred && !Held(inScope, last) then [Missing(last)] else []
  }

  lemma {:induction false} MissingSplits(inScope: seq<LiveRow>, expected: seq<RoleGrant>, deferred: set<RoleGrant>)
    ensures multiset(MissingViolations(inScope, expected, {}))
            == multiset(MissingViolations(inScope, expected, deferred))
               + multiset(MissingDeferred(inScope, expected, deferred))
  {
    hide Held;
    if expected != [] { MissingSplits(inScope, expected[..|expected| - 1], deferred); }
  }

  /** The full audit reports what the relaxed one reports, and the missing deferred grants. */
  lemma FullIsRelaxedPlusDeferred(rows: seq<LiveRow>, expected: seq<RoleGrant>, s: Scope, deferred: set<RoleGrant>)
    ensures multiset(AuditViolations(rows, expected, s, {}))
            == multiset(AuditViolations(rows, expected, s, deferred))
               + multiset(MissingDeferred(InScopeRows(rows, s), expected, deferred))
  {
    hide InScopeRows, OutsideViolations, ExtraViolations, MissingViolations, MissingDeferred;
    MissingSplits(InScopeRows(rows, s), expected, deferred);
  }

  /** A clean full audit is a clean relaxed one; the converse needs every deferred expected grant to be there. */
  lemma FullCleanExactly(rows: seq<LiveRow>, expected: seq<RoleGrant>, s: Scope, deferred: set<RoleGrant>)
    ensures AuditViolations(rows, expected, s, {}) == []
            <==> && AuditViolations(rows, expected, s, deferred) == []
                 && forall g :: g in expected && g in deferred ==> Granted(rows, s, g)
  {
    hide AuditViolations, Granted, PermittedElsewhere, InContainer, OptionIsFalse, GrantOf;
    AuditCleanExactly(rows, expected, s, {});
    AuditCleanExactly(rows, expected, s, deferred);
  }

  // ----- The web role in the other environments

  /** What the web role may hold elsewhere is exactly what is expected of it there. */
  lemma PublicWebElsewhereExact(row: LiveRow, s: Scope, manifest: set<ManifestRow>)
    requires s.role == PUBLIC_WEB && s.surface == CrossEnvironmentAllowed(manifest)
    requires GrantOf(row).objectType in DATABASE_SCOPED_TYPES && GrantOf(row).objectType != "DATABASE"
             && HasDot(row.name)
    ensures PermittedElsewhere(row, s)
            <==> && OptionIsFalse(row.grantOption) && Container(row.name) in ENVIRONMENT_DATABASES
                 && GrantOf(row).(grantee := PUBLIC_WEB)
                    in ExpectedRoleGrants(manifest, Container(row.name), PUBLIC_WEB)
  {
    hide DATABASE_SCOPED_TYPES, ENVIRONMENT_DATABASES, OptionIsFalse, HasDot, Container, SurfaceOf,
      CrossEnvironmentAllowed, ExpectedRoleGrants;
    WarehouseIsNoObject();
    var g := GrantOf(row).(grantee := PUBLIC_WEB);
    SurfaceIgnoresGrantee(GrantOf(row));
    SurfaceDecides(manifest, g);
  }

  lemma SurfaceIgnoresGrantee(g: RoleGrant)
    ensures SurfaceOf(g) == SurfaceOf(g.(grantee := PUBLIC_WEB))
  {
  }
}

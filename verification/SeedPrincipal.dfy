/** The audit of the seed verifier's role: each expected grant exactly once, and nothing else. */
module SeedPrincipal {
  import opened Wrappers
  import opened Sequences
  import opened SqlText
  import opened LiveGrants

  const SEED_ROLE := "ROASTPILOT_VERIFY_SEED"

  // ----- Rows of the role

  datatype Verdict = Malformed | WrongGrantee | SelfEdge | Inherited | Observed

  function Classify(row: LiveRow): Verdict {
    var g := GrantOf(row);
    if g.privilege == "" || g.objectType == "" || g.name == "" || g.grantee == "" then Malformed
    else if Upper(Strip(row.grantedTo)) != "ROLE" then WrongGrantee
    else if g.objectType == "ROLE" then
      if g.privilege != "USAGE" || g.name != SEED_ROLE || g.grantee != SEED_ROLE || !OptionIsFalse(row.grantOption)
      then Inherited else SelfEdge
    else Observed
  }

  datatype Violation = BadRow(verdict: Verdict, grant: RoleGrant) | Extra(grant: RoleGrant) | Missing(grant: RoleGrant)
    | Duplicate(grant: RoleGrant)

  predicate IsBad(row: LiveRow) {
    Classify(row) == Malformed || Classify(row) == WrongGrantee || Classify(row) == Inherited
  }

  function BadRows(rows: seq<LiveRow>): seq<Violation> {
    if rows == [] then [] else
      var last := rows[|rows| - 1];
      BadRows(rows[..|rows| - 1]) + if IsBad(last) then [BadRow(Classify(last), GrantOf(last))] else []
  }

  function ObservedRows(rows: seq<LiveRow>): seq<LiveRow> {
    if rows == [] then [] else
      var last := rows[|rows| - 1];
      ObservedRows(rows[..|rows| - 1]) + if Classify(last) == Observed then [last] else []
  }

  predicate Matches(row: LiveRow, expected: seq<RoleGrant>) {
    OptionIsFalse(row.grantOption) && GrantOf(row) in expected
  }

  function Extras(observed: seq<LiveRow>, expected: seq<RoleGrant>): seq<Violation> {
    if observed == [] then [] else
      var last := observed[|observed| - 1];
      Extras(observed[..|observed| - 1], expected) + if Matches(last, expected) then [] else [Extra(GrantOf(last))]
  }

  /** How many observed rows hold a grant without grant option. */
  function CountOf(observed: seq<LiveRow>, g: RoleGrant): nat {
    if observed == [] then 0 else
      var last := observed[|observed| - 1];
      CountOf(observed[..|observed| - 1], g) + if OptionIsFalse(last.grantOption) && GrantOf(last) == g then 1 else 0
  }

  function Miscounted(observed: seq<LiveRow>, expected: seq<RoleGrant>): seq<Violation> {
    if expected == [] then [] else
      var last := expected[|expected| - 1];
      Miscounted(observed, expected[..|expected| - 1])
      + (if CountOf(observed, last) == 0 then [Missing(last)]
         else if CountOf(observed, last) != 1 then [Duplicate(last)] else [])
  }

  function ManifestViolations(rows: seq<LiveRow>, expected: seq<RoleGrant>): seq<Violation> {
    BadRows(rows) + Extras(ObservedRows(rows), expected) + Miscounted(ObservedRows(rows), expected)
  }

  method CountMatching(observed: seq<LiveRow>, g: RoleGrant) returns (n: nat)
    ensures n == CountOf(observed, g)
  {
    hide OptionIsFalse, GrantOf;
    n := 0;
    for i := 0 to |observed|
      invariant n == CountOf(observed[..i], g)
    {
      assert observed[..i + 1][..i] == observed[..i];
      if OptionIsFalse(observed[i].grantOption) && GrantOf(observed[i]) == g { n := n + 1; }
    }
    assert observed[..|observed|] == observed;
  }

  method FindSeedRoleManifestViolations(rows: seq<LiveRow>, expected: seq<RoleGrant>)
    returns (violations: seq<Violation>)
    ensures violations == ManifestViolations(rows, expected)
  {
    hide Classify, Extras, Miscounted;
    var observed: seq<LiveRow> := [];
    violations := [];
    for i := 0 to |rows|
      invariant violations == BadRows(rows[..i]) && observed == ObservedRows(rows[..i])
    {
      assert rows[..i + 1][..i] == rows[..i];
      var verdict := Classify(rows[i]);
      if verdict == Observed {
        observed := observed + [rows[i]];
      } else if verdict != SelfEdge {
        violations := violations + [BadRow(verdict, GrantOf(rows[i]))];
      }
    }
    assert rows[..|rows|] == rows;
    var extras := FindExtras(observed, expected);
    var miscounted := FindMiscounted(observed, expected);
    violations := violations + extras + miscounted;
  }

  method FindExtras(observed: seq<LiveRow>, expected: seq<RoleGrant>) returns (violations: seq<Violation>)
    ensures violations == Extras(observed, expected)
  {
    hide Matches;
    violations := [];
    for i := 0 to |observed|
      invariant violations == Extras(observed[..i], expected)
    {
      assert observed[..i + 1][..i] == observed[..i];
      if !Matches(observed[i], expected) { violations := violations + [Extra(GrantOf(observed[i]))]; }
    }
    assert observed[..|observed|] == observed;
  }

  method FindMiscounted(observed: seq<LiveRow>, expected: seq<RoleGrant>) returns (violations: seq<Violation>)
    ensures violations == Miscounted(observed, expected)
  {
    hide CountOf;
    violations := [];
    for i := 0 to |expected|
      invariant violations == Miscounted(observed, expected[..i])
    {
      assert expected[..i + 1][..i] == expected[..i];
      var n := CountMatching(observed, expected[i]);
      if n == 0 {
        violations := violations + [Missing(expected[i])];
      } else if n != 1 {
        violations := violations + [Duplicate(expected[i])];
      }
    }
    assert expected[..|expected|] == expected;
  }

  // ----- Exactly once each

  /** An inert row: the role's own usage of itself. */
  predicate IsSelfEdge(row: LiveRow) {
    Classify(row) == SelfEdge
  }

  function WithoutSelfEdges(rows: seq<LiveRow>): seq<LiveRow> {
    if rows == [] then [] else
      var last := rows[|rows| - 1];
      WithoutSelfEdges(rows[..|rows| - 1]) + if IsSelfEdge(last) then [] else [last]
  }

  predicate Plain(row: LiveRow) {
    Classify(row) == Observed && OptionIsFalse(row.grantOption)
  }

  function GrantsOf(rows: seq<LiveRow>): seq<RoleGrant> {
    Map(GrantOf, rows)
  }

  lemma {:induction false} BadRowsClean(rows: seq<LiveRow>)
    ensures BadRows(rows) == [] <==> forall i :: 0 <= i < |rows| ==> !IsBad(rows[i])
  {
    hide IsBad;
    if rows != [] { BadRowsClean(rows[..|rows| - 1]); }
  }

  lemma {:induction false} ObservedIsRest(rows: seq<LiveRow>)
    requires forall i :: 0 <= i < |rows| ==> !IsBad(rows[i])
    ensures ObservedRows(rows) == WithoutSelfEdges(rows)
  {
    hide Classify;
    if rows != [] { ObservedIsRest(rows[..|rows| - 1]); }
  }

  lemma {:induction false} RestMembers(rows: seq<LiveRow>)
    ensures forall row :: row in WithoutSelfEdges(rows) <==> row in rows && !IsSelfEdge(row)
  {
    hide IsSelfEdge;
    if rows != [] {
      RestMembers(rows[..|rows| - 1]);
      assert rows == rows[..|rows| - 1] + [rows[|rows| - 1]];
    }
  }

  lemma {:induction false} ObservedMembers(rows: seq<LiveRow>)
    ensures forall row :: row in ObservedRows(rows) <==> row in rows && Classify(row) == Observed
  {
    hide Classify;
    if rows != [] {
      ObservedMembers(rows[..|rows| - 1]);
      assert rows == rows[..|rows| - 1] + [rows[|rows| - 1]];
    }
  }

  lemma {:induction false} ExtrasClean(observed: seq<LiveRow>, expected: seq<RoleGrant>)
    ensures Extras(observed, expected) == [] <==> forall i :: 0 <= i < |observed| ==> Matches(observed[i], expected)
  {
    hide Matches;
    if observed != [] { ExtrasClean(observed[..|observed| - 1], expected); }
  }

  lemma {:induction false} MiscountedClean(observed: seq<LiveRow>, expected: seq<RoleGrant>)
    ensures Miscounted(observed, expected) == []
            <==> forall i :: 0 <= i < |expected| ==> CountOf(observed, expected[i]) == 1
  {
    hide CountOf;
    if expected != [] { MiscountedClean(observed, expected[..|expected| - 1]); }
  }

  /** Without grant options, counting rows is counting grants. */
  lemma {:induction false} CountIsMultiplicity(observed: seq<LiveRow>, g: RoleGrant)
    requires forall i :: 0 <= i < |observed| ==> OptionIsFalse(observed[i].grantOption)
    ensures CountOf(observed, g) == multiset(GrantsOf(observed))[g]
  {
    hide OptionIsFalse, GrantOf;
    if observed != [] {
      var init, last := observed[..|observed| - 1], observed[|observed| - 1];
      CountIsMultiplicity(init, g);
      assert GrantsOf(observed) == GrantsOf(init) + [GrantOf(last)];
    }
  }

  lemma {:induction false} DistinctMultiplicity(expected: seq<RoleGrant>, g: RoleGrant)
    requires Distinct(expected)
    ensures multiset(expected)[g] == if g in expected then 1 else 0
  {
    if expected != [] {
      var init, last := expected[..|expected| - 1], expected[|expected| - 1];
      assert expected == init + [last];
      DistinctAppend(init, last);
      DistinctMultiplicity(init, g);
    }
  }

  /** With all rows matching, each expected grant counted once is equality of multisets. */
  lemma CountsAreBijection(observed: seq<LiveRow>, expected: seq<RoleGrant>)
    requires Distinct(expected) && forall i :: 0 <= i < |observed| ==> Matches(observed[i], expected)
    ensures (forall i :: 0 <= i < |expected| ==> CountOf(observed, expected[i]) == 1)
            <==> multiset(GrantsOf(observed)) == multiset(expected)
  {
    hide OptionIsFalse, GrantOf, CountOf;
    forall g
      ensures CountOf(observed, g) == multiset(GrantsOf(observed))[g]
      ensures multiset(expected)[g] == if g in expected then 1 else 0
      ensures g in GrantsOf(observed) ==> g in expected
    {
      CountIsMultiplicity(observed, g);
      DistinctMultiplicity(expected, g);
      if g in GrantsOf(observed) {
        var i :| 0 <= i < |observed| && GrantsOf(observed)[i] == g;
        assert Matches(observed[i], expected);
      }
    }
    if forall i :: 0 <= i < |expected| ==> CountOf(observed, expected[i]) == 1 {
      forall g ensures multiset(GrantsOf(observed))[g] == multiset(expected)[g] {
        if g !in expected { assert g !in GrantsOf(observed); }
      }
    }
    if multiset(GrantsOf(observed)) == multiset(expected) {
      forall i | 0 <= i < |expected| ensures CountOf(observed, expected[i]) == 1 {
        assert expected[i] in expected;
      }
    }
  }

  /**
   * The audit is clean exactly when, self edges aside, every row is a plain grant without grant option and the
   * rows hold the expected grants, each exactly once.
   */
  lemma SeedAuditCleanExactly(rows: seq<LiveRow>, expected: seq<RoleGrant>)
    requires Distinct(expected)
    ensures ManifestViolations(rows, expected) == []
            <==> && (forall row :: row in WithoutSelfEdges(rows) ==> Plain(row))
                 && multiset(GrantsOf(WithoutSelfEdges(rows))) == multiset(expected)
  {
    hide Classify, OptionIsFalse, GrantOf, CountOf, Distinct, BadRows, Extras, Miscounted, ObservedRows,
      WithoutSelfEdges, GrantsOf;
    var observed, rest := ObservedRows(rows), WithoutSelfEdges(rows);
    BadRowsClean(rows);
    RestMembers(rows);
    ExtrasClean(observed, expected);
    MiscountedClean(observed, expected);
    if ManifestViolations(rows, expected) == [] {
      ObservedIsRest(rows);
      ObservedMembers(rows);
      CountsAreBijection(observed, expected);
      forall row | row in rest ensures Plain(row) {
        var i :| 0 <= i < |observed| && observed[i] == row;
      }
    }
    if (forall row :: row in rest ==> Plain(row)) && multiset(GrantsOf(rest)) == multiset(expected) {
      forall i | 0 <= i < |rows| ensures !IsBad(rows[i]) {
        assert rows[i] in rows;
        assert !IsSelfEdge(rows[i]) ==> Plain(rows[i]);
      }
      ObservedIsRest(rows);
      forall i | 0 <= i < |observed| ensures Matches(observed[i], expected) {
        assert observed[i] in rest;
        GrantListed(rest, expected, i);
      }
      CountsAreBijection(observed, expected);
    }
  }

  lemma GrantListed(rest: seq<LiveRow>, expected: seq<RoleGrant>, i: nat)
    requires i < |rest| && multiset(GrantsOf(rest)) == multiset(expected)
    ensures GrantOf(rest[i]) in expected
  {
    hide GrantOf;
    assert GrantsOf(rest)[i] in multiset(GrantsOf(rest));
  }

  // ----- The expected manifest

  datatype Verb = Usage | Insert | Update | Delete | Select

  datatype Target = Database | Schema | Warehouse | Roasts | Telemetry | Artifacts | Summaries

  function VerbText(v: Verb): string {
    match v
    case Usage => "USAGE"
    case Insert => "INSERT"
    case Update => "UPDATE"
    case Delete => "DELETE"
    case Select => "SELECT"
  }

  function TypeText(t: Target): string {
    match t
    case Database => "DATABASE"
    case Schema => "SCHEMA"
    case Warehouse => "WAREHOUSE"
    case _ => "TABLE"
  }

  function NameText(t: Target): string {
    match t
    case Database => "ROASTPILOT_DEV"
    case Schema => "ROASTPILOT_DEV.APP"
    case Warehouse => "ROASTPILOT_WH"
    case Roasts => "ROASTPILOT_DEV.APP.CLOUD_ROASTS"
    case Telemetry => "ROASTPILOT_DEV.APP.ROAST_TELEMETRY"
    case Artifacts => "ROASTPILOT_DEV.APP.ROAST_ARTIFACTS"
    case Summaries => "ROASTPILOT_DEV.APP.REFERENCE_ROAST_SUMMARIES"
  }

  const EXPECTED := [
    (Usage, Database), (Usage, Schema), (Usage, Warehouse),
    (Insert, Roasts), (Update, Roasts), (Delete, Roasts), (Insert, Telemetry), (Delete, Telemetry),
    (Delete, Artifacts), (Delete, Summaries),
    (Select, Roasts), (Select, Telemetry), (Select, Artifacts), (Select, Summaries)]

  function GrantFor(e: (Verb, Target)): RoleGrant {
    RoleGrant(VerbText(e.0), TypeText(e.1), NameText(e.1), SEED_ROLE)
  }

  /** The seed role's expected grants. */
  function ExpectedSeedRoleGrants(): seq<RoleGrant> {
    Map(GrantFor, EXPECTED)
  }

  lemma VerbsDiffer(a: Verb, b: Verb)
    requires VerbText(a) == VerbText(b)
    ensures a == b
  {
  }

  lemma TargetsDiffer(a: Target, b: Target)
    requires NameText(a) == NameText(b)
    ensures a == b
  {
    LengthsAndLetters(a);
    LengthsAndLetters(b);
  }

  /** A target can be told from its name's length and one letter. */
  lemma LengthsAndLetters(t: Target)
    ensures |NameText(t)| == match t case Database => 14 case Schema => 18 case Warehouse => 13 case Roasts => 31
                                    case Telemetry => 34 case Artifacts => 34 case Summaries => 44
    ensures t == Telemetry ==> NameText(t)[25] == 'T'
    ensures t == Artifacts ==> NameText(t)[25] == 'A'
  {
  }

  lemma ExpectedGrantsDistinct()
    ensures Distinct(ExpectedSeedRoleGrants())
  {
    hide VerbText, NameText, TypeText;
    forall i, j | 0 <= i < j < |EXPECTED| ensures GrantFor(EXPECTED[i]) != GrantFor(EXPECTED[j]) {
      if GrantFor(EXPECTED[i]) == GrantFor(EXPECTED[j]) {
        VerbsDiffer(EXPECTED[i].0, EXPECTED[j].0);
        TargetsDiffer(EXPECTED[i].1, EXPECTED[j].1);
      }
    }
  }

  // ----- Roles of the user

  datatype UserViolation = BlankRole | UnexpectedRole(role: string) | NoRows(count: nat) | WrongCount(count: nat)

  function RoleViolations(roles: seq<string>, expected: string): seq<UserViolation> {
    if roles == [] then [] else
      var last := roles[|roles| - 1];
      RoleViolations(roles[..|roles| - 1], expected)
      + (if last == "" then [BlankRole] else if last == "PUBLIC" || last == expected then []
         else [UnexpectedRole(last)])
  }

  /** The roles that are neither blank nor PUBLIC. */
  function NonPublic(roles: seq<string>): seq<string> {
    if roles == [] then [] else
      var last := roles[|roles| - 1];
      NonPublic(roles[..|roles| - 1]) + if last == "" || last == "PUBLIC" then [] else [last]
  }

  function Occurrences(roles: seq<string>, expected: string): nat {
    if roles == [] then 0 else
      Occurrences(roles[..|roles| - 1], expected) + if roles[|roles| - 1] == expected then 1 else 0
  }

  method FindUserRoleGrantViolations(roles: seq<string>, expected: string) returns (violations: seq<UserViolation>)
    ensures violations
            == RoleViolations(roles, expected)
               + (var n := Occurrences(NonPublic(roles), expected);
                  if n == 1 then [] else [if roles == [] then NoRows(n) else WrongCount(n)])
  {
    violations := [];
    var present: seq<string> := [];
    for i := 0 to |roles|
      invariant violations == RoleViolations(roles[..i], expected) && present == NonPublic(roles[..i])
    {
      assert roles[..i + 1][..i] == roles[..i];
      var role := roles[i];
      if role == "" {
        violations := violations + [BlankRole];
      } else if role != "PUBLIC" {
        present := present + [role];
        if role != expected { violations := violations + [UnexpectedRole(role)]; }
      }
    }
    assert roles[..|roles|] == roles;
    var n := 0;
    for i := 0 to |present|
      invariant n == Occurrences(present[..i], expected)
    {
      assert present[..i + 1][..i] == present[..i];
      if present[i] == expected { n := n + 1; }
    }
    assert present[..|present|] == present;
    if n != 1 { violations := violations + [if roles == [] then NoRows(n) else WrongCount(n)]; }
  }

  predicate AllAre(roles: seq<string>, expected: string) {
    forall i :: 0 <= i < |roles| ==> roles[i] == expected
  }

  lemma AllAppend(a: seq<string>, x: string, e: string)
    ensures AllAre(a + [x], e) <==> x == e && AllAre(a, e)
  {
    var b := a + [x];
    assert b[|a|] == x && forall i :: 0 <= i < |a| ==> b[i] == a[i];
  }

  lemma NonPublicStep(init: seq<string>, last: string)
    ensures NonPublic(init + [last])
            == if last == "" || last == "PUBLIC" then NonPublic(init) else NonPublic(init) + [last]
  {
    assert (init + [last])[..|init|] == init;
  }

  lemma ViolationsStep(init: seq<string>, last: string, expected: string)
    ensures RoleViolations(init + [last], expected) == []
            <==> RoleViolations(init, expected) == [] && last != "" && (last == "PUBLIC" || last == expected)
  {
    assert (init + [last])[..|init|] == init;
  }

  lemma {:induction false} RolesClean(roles: seq<string>, expected: string)
    ensures RoleViolations(roles, expected) == [] <==> "" !in roles && AllAre(NonPublic(roles), expected)
  {
    if roles != [] {
      hide RoleViolations, NonPublic, AllAre;
      var init, last := roles[..|roles| - 1], roles[|roles| - 1];
      assert roles == init + [last];
      RolesClean(init, expected);
      NonPublicStep(init, last);
      ViolationsStep(init, last, expected);
      AllAppend(NonPublic(init), last, expected);
    }
  }

  lemma {:induction false} AllTheSame(roles: seq<string>, expected: string)
    requires AllAre(roles, expected)
    ensures Occurrences(roles, expected) == |roles|
  {
    if roles != [] { AllTheSame(roles[..|roles| - 1], expected); }
  }

  /**
   * The user audit is clean exactly when no role is blank and, PUBLIC aside, the one role granted is the expected one.
   */
  lemma UserAuditCleanExactly(roles: seq<string>, expected: string)
    ensures RoleViolations(roles, expected) == [] && Occurrences(NonPublic(roles), expected) == 1
            <==> "" !in roles && NonPublic(roles) == [expected]
  {
    hide RoleViolations, Occurrences, NonPublic;
    RolesClean(roles, expected);
    if AllAre(NonPublic(roles), expected) {
      AllTheSame(NonPublic(roles), expected);
    }
  }
}

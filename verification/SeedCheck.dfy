/** The whole integrity check: the row checks and the relations put together, with exactly what is reported. */
module SeedCheck {
  import opened Wrappers
  import opened Sequences
  import opened JsonTrees
  import opened SeedTypes
  import opened SeedRules
  import opened SeedRelations

  // ----- Rows

  ghost predicate RoastFinding(row: CloudRoast, isIP: string -> bool, v: Violation) {
    v == Violation(CloudRoasts, RoastIdentity(row), v.field, v.rule) && RoastRule(row, isIP, v.field, v.rule)
  }

  ghost predicate TelemetryFinding(row: Telemetry, isIP: string -> bool, v: Violation) {
    v == Violation(RoastTelemetry, row.roastId, v.field, v.rule) && TelemetryRule(row, isIP, v.field, v.rule)
  }

  ghost predicate ArtifactFinding(row: Artifact, isIP: string -> bool, v: Violation) {
    v == Violation(RoastArtifacts, ArtifactIdentity(row), v.field, v.rule) && ArtifactRule(row, isIP, v.field, v.rule)
  }

  ghost predicate ReviewFinding(row: Review, now: int, isIP: string -> bool, v: Violation) {
    v == Violation(TastingReviews, ReviewIdentity(row), v.field, v.rule) && ReviewRule(row, now, isIP, v.field, v.rule)
  }

  ghost predicate SummaryFinding(row: ReferenceSummary, isIP: string -> bool, v: Violation) {
    v == Violation(ReferenceRoastSummaries, GroupText(row), v.field, v.rule) && SummaryRule(row, isIP, v.field, v.rule)
  }

  method ValidateRoasts(rows: seq<CloudRoast>, isIP: string -> bool) returns (violations: seq<Violation>)
    ensures forall v :: v in violations <==> exists k :: 0 <= k < |rows| && RoastFinding(rows[k], isIP, v)
    ensures violations == [] <==> forall row :: row in rows ==> RoastOk(row, isIP)
  {
    hide RoastRule, RoastOk;
    violations := [];
    for i := 0 to |rows|
      invariant forall v :: v in violations <==> exists k :: 0 <= k < i && RoastFinding(rows[k], isIP, v)
      invariant violations == [] <==> forall k :: 0 <= k < i ==> RoastOk(rows[k], isIP)
    {
      var found := ValidateRoast(rows[i], isIP);
      violations := violations + found;
    }
  }

  method ValidateTelemetryRows(rows: seq<Telemetry>, isIP: string -> bool) returns (violations: seq<Violation>)
    ensures forall v :: v in violations <==> exists k :: 0 <= k < |rows| && TelemetryFinding(rows[k], isIP, v)
    ensures violations == [] <==> forall row :: row in rows ==> TelemetryOk(row, isIP)
  {
    hide TelemetryRule, TelemetryOk;
    violations := [];
    for i := 0 to |rows|
      invariant forall v :: v in violations <==> exists k :: 0 <= k < i && TelemetryFinding(rows[k], isIP, v)
      invariant violations == [] <==> forall k :: 0 <= k < i ==> TelemetryOk(rows[k], isIP)
    {
      var found := ValidateTelemetry(rows[i], isIP);
      violations := violations + found;
    }
  }

  method ValidateArtifactRows(rows: seq<Artifact>, isIP: string -> bool) returns (violations: seq<Violation>)
    ensures forall v :: v in violations <==> exists k :: 0 <= k < |rows| && ArtifactFinding(rows[k], isIP, v)
    ensures violations == [] <==> forall row :: row in rows ==> ArtifactOk(row, isIP)
  {
    hide ArtifactRule, ArtifactOk;
    violations := [];
    for i := 0 to |rows|
      invariant forall v :: v in violations <==> exists k :: 0 <= k < i && ArtifactFinding(rows[k], isIP, v)
      invariant violations == [] <==> forall k :: 0 <= k < i ==> ArtifactOk(rows[k], isIP)
    {
      var found := ValidateArtifactRow(rows[i], isIP);
      violations := violations + found;
    }
  }

  method ValidateReviews(rows: seq<Review>, now: int, isIP: string -> bool) returns (violations: seq<Violation>)
    ensures forall v :: v in violations <==> exists k :: 0 <= k < |rows| && ReviewFinding(rows[k], now, isIP, v)
    ensures violations == [] <==> forall row :: row in rows ==> ReviewOk(row, now, isIP)
  {
    hide ReviewRule, ReviewOk;
    violations := [];
    for i := 0 to |rows|
      invariant forall v :: v in violations <==> exists k :: 0 <= k < i && ReviewFinding(rows[k], now, isIP, v)
      invariant violations == [] <==> forall k :: 0 <= k < i ==> ReviewOk(rows[k], now, isIP)
    {
      var found := ValidateReview(rows[i], now, isIP);
      violations := violations + found;
    }
  }

  method ValidateSummaries(rows: seq<ReferenceSummary>, isIP: string -> bool) returns (violations: seq<Violation>)
    ensures forall v :: v in violations <==> exists k :: 0 <= k < |rows| && SummaryFinding(rows[k], isIP, v)
    ensures violations == [] <==> forall row :: row in rows ==> SummaryOk(row, isIP)
  {
    hide SummaryRule, SummaryOk;
    violations := [];
    for i := 0 to |rows|
      invariant forall v :: v in violations <==> exists k :: 0 <= k < i && SummaryFinding(rows[k], isIP, v)
      invariant violations == [] <==> forall k :: 0 <= k < i ==> SummaryOk(rows[k], isIP)
    {
      var found := ValidateSummary(rows[i], isIP);
      violations := violations + found;
    }
  }

  /** A broken rule of some row, in the fields that break it. */
  ghost predicate RowFinding(output: SeedOutput, now: int, isIP: string -> bool, v: Violation) {
    || (exists k :: 0 <= k < |output.cloudRoasts| && RoastFinding(output.cloudRoasts[k], isIP, v))
    || (exists k :: 0 <= k < |output.roastTelemetry| && TelemetryFinding(output.roastTelemetry[k], isIP, v))
    || (exists k :: 0 <= k < |output.roastArtifacts| && ArtifactFinding(output.roastArtifacts[k], isIP, v))
    || (exists k :: 0 <= k < |output.tastingReviews| && ReviewFinding(output.tastingReviews[k], now, isIP, v))
    || (exists k ::
          0 <= k < |output.referenceRoastSummaries| && SummaryFinding(output.referenceRoastSummaries[k], isIP, v))
  }

  method ValidateRows(output: SeedOutput, now: int, isIP: string -> bool) returns (violations: seq<Violation>)
    ensures forall v :: v in violations <==> RowFinding(output, now, isIP, v)
    ensures violations == [] <==> RowsOk(output, now, isIP)
  {
    hide RoastFinding, TelemetryFinding, ArtifactFinding, ReviewFinding, SummaryFinding,
      RoastOk, TelemetryOk, ArtifactOk, ReviewOk, SummaryOk;
    var roasts := ValidateRoasts(output.cloudRoasts, isIP);
    var telemetry := ValidateTelemetryRows(output.roastTelemetry, isIP);
    var artifacts := ValidateArtifactRows(output.roastArtifacts, isIP);
    var reviews := ValidateReviews(output.tastingReviews, now, isIP);
    var summaries := ValidateSummaries(output.referenceRoastSummaries, isIP);
    violations := roasts + telemetry + artifacts + reviews + summaries;
  }

  // ----- References

  predicate OrphanAt(table: SeedTable, identity: string, parent: string, known: set<string>, v: Violation) {
    parent !in known && v == Violation(table, identity, Name(RoastId), KnownRoast)
  }

  /** A child of an unknown roast. */
  ghost predicate OrphanFinding(output: SeedOutput, v: Violation) {
    var known := RoastIds(output.cloudRoasts);
    || (exists r :: r in output.roastTelemetry && OrphanAt(RoastTelemetry, r.roastId, r.roastId, known, v))
    || (exists r :: r in output.roastArtifacts && OrphanAt(RoastArtifacts, ArtifactIdentity(r), r.roastId, known, v))
    || (exists r :: r in output.tastingReviews && OrphanAt(TastingReviews, ReviewIdentity(r), r.roastId, known, v))
  }

  method TelemetryOrphans(rows: seq<Telemetry>, known: set<string>) returns (violations: seq<Violation>)
    ensures forall v :: v in violations
                        <==> exists r :: r in rows && OrphanAt(RoastTelemetry, r.roastId, r.roastId, known, v)
    ensures violations == [] <==> forall r :: r in rows ==> r.roastId in known
  {
    hide Name;
    var parents := Map((r: Telemetry) => r.roastId, rows);
    violations := FindOrphans(RoastTelemetry, parents, parents, known);
    assert forall i :: 0 <= i < |rows| ==> rows[i].roastId == parents[i];
  }

  method ArtifactOrphans(rows: seq<Artifact>, known: set<string>) returns (violations: seq<Violation>)
    ensures forall v :: v in violations
                        <==> exists r :: r in rows && OrphanAt(RoastArtifacts, ArtifactIdentity(r), r.roastId, known, v)
    ensures violations == [] <==> forall r :: r in rows ==> r.roastId in known
  {
    hide Name, ArtifactIdentity;
    var parents, identities := Map((r: Artifact) => r.roastId, rows), Map(ArtifactIdentity, rows);
    violations := FindOrphans(RoastArtifacts, parents, identities, known);
    assert forall i :: 0 <= i < |rows| ==> rows[i].roastId == parents[i] && ArtifactIdentity(rows[i]) == identities[i];
  }

  method ReviewOrphans(rows: seq<Review>, known: set<string>) returns (violations: seq<Violation>)
    ensures forall v :: v in violations
                        <==> exists r :: r in rows && OrphanAt(TastingReviews, ReviewIdentity(r), r.roastId, known, v)
    ensures violations == [] <==> forall r :: r in rows ==> r.roastId in known
  {
    hide Name, ReviewIdentity;
    var parents, identities := Map((r: Review) => r.roastId, rows), Map(ReviewIdentity, rows);
    violations := FindOrphans(TastingReviews, parents, identities, known);
    assert forall i :: 0 <= i < |rows| ==> rows[i].roastId == parents[i] && ReviewIdentity(rows[i]) == identities[i];
  }

  method ValidateReferences(output: SeedOutput) returns (violations: seq<Violation>)
    ensures forall v :: v in violations <==> OrphanFinding(output, v)
    ensures violations == [] <==> ChildrenReferenceRoasts(output)
  {
    hide OrphanAt;
    var known := RoastIds(output.cloudRoasts);
    var telemetry := TelemetryOrphans(output.roastTelemetry, known);
    var artifacts := ArtifactOrphans(output.roastArtifacts, known);
    var reviews := ReviewOrphans(output.tastingReviews, known);
    violations := telemetry + artifacts + reviews;
  }

  // ----- Identities

  /** A present key that an earlier row has already. */
  predicate RepeatsAt<K(==)>(keys: seq<Option<K>>, i: nat)
    requires i < |keys|
  {
    keys[i].Some? && keys[i] in keys[..i]
  }

  ghost predicate RepeatFinding<K>(table: SeedTable, keys: seq<Option<K>>, identities: seq<string>, field: string,
                                   rule: Rule,
                                   v: Violation)
    requires |identities| == |keys|
  {
    exists i: nat :: i < |keys| && RepeatsAt(keys, i) && v == Violation(table, identities[i], field, rule)
  }

  lemma {:induction false} RepeatMembers<K>(keys: seq<Option<K>>, n: nat)
    requires n <= |keys|
    ensures forall i: nat :: i in Repeats(keys, n) <==> i < n && RepeatsAt(keys, i)
  {
    if n > 0 { RepeatMembers(keys, n - 1); }
  }

  method ReportRepeats<K(==)>(table: SeedTable, keys: seq<Option<K>>, identities: seq<string>, field: string,
                              rule: Rule)
    returns (violations: seq<Violation>)
    requires |identities| == |keys|
    ensures forall v :: v in violations <==> RepeatFinding(table, keys, identities, field, rule, v)
    ensures violations == [] <==> DistinctPresent(keys)
  {
    violations := FindRepeats(table, keys, identities, field, rule);
    RepeatMembers(keys, |keys|);
    hide RepeatsAt;
    var at := Repeats(keys, |keys|);
    forall v ensures v in violations <==> RepeatFinding(table, keys, identities, field, rule, v) {
      if RepeatFinding(table, keys, identities, field, rule, v) {
        var i: nat :| i < |keys| && RepeatsAt(keys, i) && v == Violation(table, identities[i], field, rule);
        var k :| 0 <= k < |at| && at[k] == i;
        assert violations[k] == v;
      }
      if v in violations {
        var k :| 0 <= k < |violations| && violations[k] == v;
        assert at[k] in at && RepeatsAt(keys, at[k]);
      }
    }
  }

  function Named(ids: seq<Option<string>>): (r: seq<string>)
    ensures |r| == |ids|
  {
    Map((id: Option<string>) => if id.Some? then id.value else "unknown", ids)
  }

  /** A second row with an id of its table. */
  ghost predicate IdFinding(table: SeedTable, ids: seq<Option<string>>, v: Violation) {
    RepeatFinding(table, ids, Named(ids), Name(Id), UniqueId, v)
  }

  ghost predicate KeyFinding(roasts: seq<CloudRoast>, v: Violation) {
    RepeatFinding(CloudRoasts, IdempotencyKeys(roasts), Map((r: CloudRoast) => r.idempotencyKey, roasts),
                  Name(IdempotencyKey), UniqueKey, v)
  }

  ghost predicate SlugFinding(roasts: seq<CloudRoast>, v: Violation) {
    RepeatFinding(CloudRoasts, SlugKeys(roasts), Map(RoastIdentity, roasts), Name(PublicSlug), UniqueSlug, v)
  }

  ghost predicate GroupFinding(summaries: seq<ReferenceSummary>, v: Violation) {
    RepeatFinding(ReferenceRoastSummaries, SummaryGroupKeys(summaries), Map(GroupText, summaries),
                  "bean_origin|roast_level", UniqueGroup, v)
  }

  ghost predicate IdentityFinding(output: SeedOutput, v: Violation) {
    || IdFinding(CloudRoasts, RoastIdKeys(output.cloudRoasts), v)
    || IdFinding(RoastArtifacts, ArtifactIdKeys(output.roastArtifacts), v)
    || IdFinding(TastingReviews, ReviewIdKeys(output.tastingReviews), v)
    || IdFinding(ReferenceRoastSummaries, SummaryIdKeys(output.referenceRoastSummaries), v)
    || KeyFinding(output.cloudRoasts, v)
    || SlugFinding(output.cloudRoasts, v)
    || GroupFinding(output.referenceRoastSummaries, v)
  }

  method ReportRepeatedIds(table: SeedTable, ids: seq<Option<string>>) returns (violations: seq<Violation>)
    ensures forall v :: v in violations <==> IdFinding(table, ids, v)
    ensures violations == [] <==> DistinctPresent(ids)
  {
    hide RepeatFinding, DistinctPresent, Name, Named;
    violations := ReportRepeats(table, ids, Named(ids), Name(Id), UniqueId);
  }

  method ValidateIds(output: SeedOutput) returns (violations: seq<Violation>)
    ensures forall v :: v in violations <==>
              || IdFinding(CloudRoasts, RoastIdKeys(output.cloudRoasts), v)
              || IdFinding(RoastArtifacts, ArtifactIdKeys(output.roastArtifacts), v)
              || IdFinding(TastingReviews, ReviewIdKeys(output.tastingReviews), v)
              || IdFinding(ReferenceRoastSummaries, SummaryIdKeys(output.referenceRoastSummaries), v)
    ensures violations == [] <==>
              && DistinctPresent(RoastIdKeys(output.cloudRoasts))
              && DistinctPresent(ArtifactIdKeys(output.roastArtifacts))
              && DistinctPresent(ReviewIdKeys(output.tastingReviews))
              && DistinctPresent(SummaryIdKeys(output.referenceRoastSummaries))
  {
    hide IdFinding, DistinctPresent, RoastIdKeys, ArtifactIdKeys, ReviewIdKeys, SummaryIdKeys;
    var roasts := ReportRepeatedIds(CloudRoasts, RoastIdKeys(output.cloudRoasts));
    var artifacts := ReportRepeatedIds(RoastArtifacts, ArtifactIdKeys(output.roastArtifacts));
    var reviews := ReportRepeatedIds(TastingReviews, ReviewIdKeys(output.tastingReviews));
    var summaries := ReportRepeatedIds(ReferenceRoastSummaries, SummaryIdKeys(output.referenceRoastSummaries));
    violations := roasts + artifacts + reviews + summaries;
  }

  method ValidateIdentities(output: SeedOutput) returns (violations: seq<Violation>)
    ensures forall v :: v in violations <==> IdentityFinding(output, v)
    ensures violations == [] <==> IdentitiesUnique(output)
  {
    hide IdFinding, RepeatFinding, DistinctPresent, Name, GroupText, RoastIdentity;
    var roasts := output.cloudRoasts;
    var ids := ValidateIds(output);
    var keys := ReportRepeats(CloudRoasts, IdempotencyKeys(roasts), Map((r: CloudRoast) => r.idempotencyKey, roasts),
                              Name(IdempotencyKey), UniqueKey);
    var slugs := ReportRepeats(CloudRoasts, SlugKeys(roasts), Map(RoastIdentity, roasts), Name(PublicSlug), UniqueSlug);
    var groups := ReportRepeats(ReferenceRoastSummaries, SummaryGroupKeys(output.referenceRoastSummaries),
                                Map(GroupText, output.referenceRoastSummaries), "bean_origin|roast_level", UniqueGroup);
    violations := ids + keys + slugs + groups;
  }

  // ----- Groups and aggregates

  ghost predicate CoverageFinding(output: SeedOutput, v: Violation) {
    exists g :: CoverageRule(output.cloudRoasts, output.referenceRoastSummaries, g, v.rule)
                && v == Violation(ReferenceRoastSummaries, GroupIdentity(g), "bean_origin|roast_level", v.rule)
  }

  ghost predicate MismatchAt(output: SeedOutput, s: ReferenceSummary, v: Violation) {
    v == Violation(ReferenceRoastSummaries, GroupText(s), v.field, v.rule) && AggregateRule(output, s, v.field, v.rule)
  }

  ghost predicate AggregateFinding(output: SeedOutput, v: Violation) {
    exists k :: 0 <= k < |output.referenceRoastSummaries| && MismatchAt(output, output.referenceRoastSummaries[k], v)
  }

  method ValidateAggregates(output: SeedOutput) returns (violations: seq<Violation>)
    ensures forall v :: v in violations <==> AggregateFinding(output, v)
    ensures violations == [] <==> forall s :: s in output.referenceRoastSummaries ==> AggregatesMatch(output, s)
  {
    hide AggregatesMatch, AggregateRule;
    violations := [];
    var rows := output.referenceRoastSummaries;
    for i := 0 to |rows|
      invariant forall v :: v in violations <==> exists k :: 0 <= k < i && MismatchAt(output, rows[k], v)
      invariant violations == [] <==> forall k :: 0 <= k < i ==> AggregatesMatch(output, rows[k])
    {
      var found := FindAggregateMismatches(output, rows[i]);
      violations := violations + found;
    }
  }

  // ----- The whole check

  /** What there is to report about an output. */
  ghost predicate Finding(output: SeedOutput, now: int, isIP: string -> bool, v: Violation) {
    || RowFinding(output, now, isIP, v)
    || OrphanFinding(output, v)
    || IdentityFinding(output, v)
    || CoverageFinding(output, v)
    || AggregateFinding(output, v)
  }

  /** The check is sound and complete: it reports each finding and nothing else, and nothing exactly on valid output. */
  method ValidateSeedOutput(output: SeedOutput, now: int, isIP: string -> bool) returns (violations: seq<Violation>)
    ensures forall v :: v in violations <==> Finding(output, now, isIP, v)
    ensures violations == [] <==> ValidOutput(output, now, isIP)
  {
    hide RowFinding, OrphanFinding, IdentityFinding, AggregateFinding, CoverageRule, GroupIdentity,
      RowsOk, ChildrenReferenceRoasts, IdentitiesUnique, Covered, AggregatesMatch;
    var rows := ValidateRows(output, now, isIP);
    var references := ValidateReferences(output);
    var identities := ValidateIdentities(output);
    var coverage := FindUncoveredGroups(output.cloudRoasts, output.referenceRoastSummaries);
    var aggregates := ValidateAggregates(output);
    violations := rows + references + identities + coverage + aggregates;
  }
}

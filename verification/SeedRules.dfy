/** The relational integrity check of generated seed output. */
module SeedRules {
  import opened Wrappers
  import opened Sequences
  import opened Text
  import opened IsoTime
  import opened JsonTrees
  import opened SeededRandom
  import opened SeedTypes

  datatype Rule =
    | MustBePresent | NoRawIp | LowercaseUuid | OperatorRatingRange | AllowedVisibility | ValidSlug | CelsiusNaming
    | ElapsedNonNegative | FiniteOrNull | IntegerPercent | AllowedKind | NonEmptyPath
    | ScoreRange | SliderRange | HexHash | CreatedAtParseable | CreatedNotAfterNow | PurgedHash | EmptyKeyPatterns
    | KnownRoast | UniqueId | UniqueKey | UniqueSlug | UniqueGroup | GroupNeedsSummary | SummaryNeedsRoasts
    | RoastCountMatches | ReviewCountMatches | AvgRatingMatches | MeanMatches

  datatype Violation = Violation(table: SeedTable, rowIdentity: string, field: string, rule: Rule)

  const VISIBILITY_VALUES := ["private", "unlisted", "public"]
  const ARTIFACT_KINDS := ["jsonl", "csv", "summary"]
  const IP_RETENTION_MS := 30 * 24 * 60 * 60 * 1000

  predicate InRange(v: Num, min: int, max: int) {
    v.Fin? && v.value == v.value.Floor as real && min as real <= v.value <= max as real
  }

  predicate FiniteOrNone(v: Option<Num>) {
    v.None? || v.value.Fin?
  }

  predicate PercentOrNone(v: Option<Num>) {
    v.None? || InRange(v.value, 0, 100)
  }

  predicate IsIpHash(s: string) {
    |s| == 64 && forall i :: 0 <= i < 64 ==> '0' <= s[i] <= '9' || 'a' <= s[i] <= 'f' || 'A' <= s[i] <= 'F'
  }

  predicate RawIpCell(cell: Json, isIP: string -> bool) {
    cell.JStr? && ContainsRawIp(cell.s, isIP)
  }

  ghost predicate RawIpField(table: SeedTable, cells: Column -> Json, field: string, isIP: string -> bool) {
    exists c :: c in Columns(table) && RawIpCell(cells(c), isIP) && field == Name(c)
  }

  /** No text cell of the row holds an IP address. */
  predicate NoRawIpCells(table: SeedTable, cells: Column -> Json, isIP: string -> bool) {
    forall c :: c in Columns(table) ==> !RawIpCell(cells(c), isIP)
  }

  method FindRawIpFields(table: SeedTable, identity: string, cells: Column -> Json, isIP: string -> bool)
    returns (violations: seq<Violation>)
    ensures forall v :: v in violations
                        <==> v == Violation(table, identity, v.field, NoRawIp)
                             && RawIpField(table, cells, v.field, isIP)
    ensures violations == [] <==> NoRawIpCells(table, cells, isIP)
  {
    violations := [];
    var columns := Columns(table);
    for i := 0 to |columns|
      invariant forall v :: v in violations
                            <==> exists c :: c in columns[..i] && RawIpCell(cells(c), isIP)
                                             && v == Violation(table, identity, Name(c), NoRawIp)
      invariant violations == [] <==> forall c :: c in columns[..i] ==> !RawIpCell(cells(c), isIP)
    {
      assert columns[..i + 1] == columns[..i] + [columns[i]];
      if RawIpCell(cells(columns[i]), isIP) {
        violations := violations + [Violation(table, identity, Name(columns[i]), NoRawIp)];
      }
    }
    assert columns[..|columns|] == columns;
  }

  /** A tree of unknown shape hides neither a Fahrenheit name nor an IP address, at any depth. */
  ghost predicate CleanVariant(payload: Json, isIP: string -> bool) {
    && (forall path :: !Flagged(payload, path, CELSIUS_RULES))
    && (forall path :: !Flagged(payload, path, IpRules(isIP)))
  }

  method ReportAll(table: SeedTable, identity: string, texts: seq<string>, rule: Rule)
    returns (violations: seq<Violation>)
    ensures |violations| == |texts|
    ensures forall i :: 0 <= i < |texts| ==> violations[i] == Violation(table, identity, texts[i], rule)
  {
    violations := [];
    for i := 0 to |texts|
      invariant |violations| == i
      invariant forall k :: 0 <= k < i ==> violations[k] == Violation(table, identity, texts[k], rule)
    {
      violations := violations + [Violation(table, identity, texts[i], rule)];
    }
  }

  /** Like ReportAll, but each text once, as iterating over a Set does. */
  method ReportDistinct(table: SeedTable, identity: string, texts: seq<string>, rule: Rule)
    returns (violations: seq<Violation>)
    ensures Distinct(violations)
    ensures forall v :: v in violations <==> v == Violation(table, identity, v.field, rule) && v.field in texts
  {
    violations := [];
    var seen := {};
    for i := 0 to |texts|
      invariant forall text :: text in seen <==> text in texts[..i]
      invariant Distinct(violations)
      invariant forall v :: v in violations <==> v == Violation(table, identity, v.field, rule) && v.field in seen
    {
      assert texts[..i + 1] == texts[..i] + [texts[i]];
      if texts[i] !in seen {
        var violation := Violation(table, identity, texts[i], rule);
        DistinctAppend(violations, violation);
        violations := violations + [violation];
        seen := seen + {texts[i]};
      }
    }
    assert texts[..|texts|] == texts;
  }

  /** What the two searches of a variant column report. */
  ghost predicate VariantRule(payload: Json, name: string, isIP: string -> bool, field: string, rule: Rule) {
    || (rule == CelsiusNaming && Reported(payload, name, CELSIUS_RULES, field))
    || (rule == NoRawIp && Reported(payload, name, IpRules(isIP), field))
  }

  method FindVariantPaths(table: SeedTable, identity: string, payload: Json, name: string, isIP: string -> bool)
    returns (violations: seq<Violation>)
    ensures forall v :: v in violations
                        <==> v == Violation(table, identity, v.field, v.rule)
                             && VariantRule(payload, name, isIP, v.field, v.rule)
    ensures violations == [] <==> CleanVariant(payload, isIP)
  {
    var celsius := NonCelsiusKeyPaths(payload, name);
    var ips := RawIpPaths(payload, name, isIP);
    var named := ReportAll(table, identity, celsius, CelsiusNaming);
    var exposed := ReportDistinct(table, identity, ips, NoRawIp);
    violations := named + exposed;
    forall v: Violation
      ensures v in named <==> v == Violation(table, identity, v.field, CelsiusNaming)
                              && Reported(payload, name, CELSIUS_RULES, v.field)
      ensures v in exposed <==> v == Violation(table, identity, v.field, NoRawIp)
                                && Reported(payload, name, IpRules(isIP), v.field)
    {
      PathsExact(payload, name, CELSIUS_RULES, v.field);
      PathsExact(payload, name, IpRules(isIP), v.field);
      NamedMembers(named, table, identity, celsius, CelsiusNaming, v);
    }
    assert exposed == [] <==> ips == [] by {
      if ips != [] { assert Violation(table, identity, ips[0], NoRawIp) in exposed; }
      if exposed != [] { assert exposed[0] in exposed; }
    }
    PathsEmpty(payload, name, CELSIUS_RULES);
    PathsEmpty(payload, name, IpRules(isIP));
  }

  lemma NamedMembers(vs: seq<Violation>, table: SeedTable, identity: string, texts: seq<string>, rule: Rule,
                     v: Violation)
    requires |vs| == |texts|
    requires forall i :: 0 <= i < |texts| ==> vs[i] == Violation(table, identity, texts[i], rule)
    ensures v in vs <==> v == Violation(table, identity, v.field, rule) && v.field in texts
  {
    if v == Violation(table, identity, v.field, rule) && v.field in texts {
      var i :| 0 <= i < |texts| && texts[i] == v.field;
      assert vs[i] == v;
    }
  }

  /** The guarded `add` of the row checks. */
  method AddIf(violations: seq<Violation>, guard: bool, violation: Violation) returns (more: seq<Violation>)
    ensures forall v :: v in more <==> v in violations || (guard && v == violation)
    ensures more == [] <==> violations == [] && !guard
  {
    more := violations;
    if guard {
      more := more + [violation];
    }
  }

  // ----- cloud_roasts

  function RoastIdentity(row: CloudRoast): string {
    if row.id.Some? then row.id.value else row.idempotencyKey
  }

  ghost predicate RoastRule(row: CloudRoast, isIP: string -> bool, field: string, rule: Rule) {
    || VariantRule(row.summary, "summary", isIP, field, rule)
    || match rule
       case MustBePresent => field == Name(Summary) && row.summary == JNull
       case NoRawIp => RawIpField(CloudRoasts, c => RoastCell(row, c), field, isIP)
       case LowercaseUuid => field == Name(Id) && row.id.Some? && !IsCloudRoastId(row.id.value)
       case OperatorRatingRange =>
         field == Name(OperatorRating) && row.operatorRating.Some? && !InRange(row.operatorRating.value, 1, 5)
       case AllowedVisibility => field == Name(Visibility) && row.visibility !in VISIBILITY_VALUES
       case ValidSlug => field == Name(PublicSlug) && !IsValidSlug(row.publicSlug)
       case _ => false
  }

  ghost predicate RoastOk(row: CloudRoast, isIP: string -> bool) {
    && row.summary != JNull && CleanVariant(row.summary, isIP)
    && NoRawIpCells(CloudRoasts, c => RoastCell(row, c), isIP)
    && (row.id.Some? ==> IsCloudRoastId(row.id.value))
    && (row.operatorRating.Some? ==> InRange(row.operatorRating.value, 1, 5))
    && row.visibility in VISIBILITY_VALUES
    && IsValidSlug(row.publicSlug)
  }

  method ValidateRoast(row: CloudRoast, isIP: string -> bool) returns (violations: seq<Violation>)
    ensures forall v :: v in violations
                        <==> v == Violation(CloudRoasts, RoastIdentity(row), v.field, v.rule)
                             && RoastRule(row, isIP, v.field, v.rule)
    ensures violations == [] <==> RoastOk(row, isIP)
  {
    hide Name, Columns, RawIpField, NoRawIpCells, VariantRule, CleanVariant, InRange, IsCloudRoastId, IsValidSlug,
      IsIpHash, DateParse, RoastCell, TelemetryCell, ArtifactCell, ReviewCell, SummaryCell, IsFahrenheitKey,
      PercentOrNone, FiniteOrNone;
    var identity := RoastIdentity(row);
    violations := [];
    violations :=
      AddIf(violations, row.summary == JNull, Violation(CloudRoasts, identity, Name(Summary), MustBePresent));
    var addresses := FindRawIpFields(CloudRoasts, identity, c => RoastCell(row, c), isIP);
    violations := violations + addresses;
    violations :=
      AddIf(violations, row.id.Some? && !IsCloudRoastId(row.id.value),
            Violation(CloudRoasts, identity, Name(Id), LowercaseUuid));
    violations :=
      AddIf(violations, row.operatorRating.Some? && !InRange(row.operatorRating.value, 1, 5),
            Violation(CloudRoasts, identity, Name(OperatorRating), OperatorRatingRange));
    violations :=
      AddIf(violations, row.visibility !in VISIBILITY_VALUES,
            Violation(CloudRoasts, identity, Name(Visibility), AllowedVisibility));
    violations :=
      AddIf(violations, !IsValidSlug(row.publicSlug), Violation(CloudRoasts, identity, Name(PublicSlug), ValidSlug));
    var variant := FindVariantPaths(CloudRoasts, identity, row.summary, "summary", isIP);
    violations := violations + variant;
  }

  // ----- roast_telemetry

  /** The numeric readings of a telemetry row that break a rule. */
  ghost predicate ReadingRule(row: Telemetry, field: string, rule: Rule) {
    match rule
    case ElapsedNonNegative =>
      field == Name(ElapsedS) && !(row.elapsedS.Fin? && row.elapsedS.value >= 0.0)
    case FiniteOrNull =>
      || (field == Name(BeanTempC) && !FiniteOrNone(row.beanTempC))
      || (field == Name(EnvTempC) && !FiniteOrNone(row.envTempC))
      || (field == Name(RorCPerMin) && !FiniteOrNone(row.rorCPerMin))
    case IntegerPercent =>
      || (field == Name(HeatPercent) && !PercentOrNone(row.heatPercent))
      || (field == Name(FanPercent) && !PercentOrNone(row.fanPercent))
    case _ => false
  }

  ghost predicate TelemetryRule(row: Telemetry, isIP: string -> bool, field: string, rule: Rule) {
    || ReadingRule(row, field, rule)
    || VariantRule(row.raw, "raw", isIP, field, rule)
    || match rule
       case NoRawIp => RawIpField(RoastTelemetry, c => TelemetryCell(row, c), field, isIP)
       case CelsiusNaming => exists c :: c in Columns(RoastTelemetry) && IsFahrenheitKey(Name(c)) && field == Name(c)
       case _ => false
  }

  predicate ReadingsOk(row: Telemetry) {
    && row.elapsedS.Fin? && row.elapsedS.value >= 0.0
    && FiniteOrNone(row.beanTempC) && FiniteOrNone(row.envTempC) && FiniteOrNone(row.rorCPerMin)
    && PercentOrNone(row.heatPercent) && PercentOrNone(row.fanPercent)
  }

  ghost predicate TelemetryOk(row: Telemetry, isIP: string -> bool) {
    && NoRawIpCells(RoastTelemetry, c => TelemetryCell(row, c), isIP)
    && ReadingsOk(row)
    && (forall c :: c in Columns(RoastTelemetry) ==> !IsFahrenheitKey(Name(c)))
    && CleanVariant(row.raw, isIP)
  }

  method FindFahrenheitColumns(table: SeedTable, identity: string) returns (violations: seq<Violation>)
    ensures forall v :: v in violations
                        <==> v == Violation(table, identity, v.field, CelsiusNaming)
                             && exists c :: c in Columns(table) && IsFahrenheitKey(Name(c)) && v.field == Name(c)
    ensures violations == [] <==> forall c :: c in Columns(table) ==> !IsFahrenheitKey(Name(c))
  {
    violations := [];
    var columns := Columns(table);
    for i := 0 to |columns|
      invariant forall v :: v in violations
                            <==> exists c :: c in columns[..i] && IsFahrenheitKey(Name(c))
                                             && v == Violation(table, identity, Name(c), CelsiusNaming)
      invariant violations == [] <==> forall c :: c in columns[..i] ==> !IsFahrenheitKey(Name(c))
    {
      assert columns[..i + 1] == columns[..i] + [columns[i]];
      if IsFahrenheitKey(Name(columns[i])) {
        violations := violations + [Violation(table, identity, Name(columns[i]), CelsiusNaming)];
      }
    }
    assert columns[..|columns|] == columns;
  }

  method ValidateReadings(row: Telemetry) returns (violations: seq<Violation>)
    ensures forall v :: v in violations
                        <==> v == Violation(RoastTelemetry, row.roastId, v.field, v.rule)
                             && ReadingRule(row, v.field, v.rule)
    ensures violations == [] <==> ReadingsOk(row)
  {
    hide Name, FiniteOrNone, PercentOrNone;
    var id := row.roastId;
    var badElapsed := !(row.elapsedS.Fin? && row.elapsedS.value >= 0.0);
    violations := AddIf([], badElapsed, Violation(RoastTelemetry, id, Name(ElapsedS), ElapsedNonNegative));
    violations :=
      AddIf(violations, !FiniteOrNone(row.beanTempC), Violation(RoastTelemetry, id, Name(BeanTempC), FiniteOrNull));
    violations :=
      AddIf(violations, !FiniteOrNone(row.envTempC), Violation(RoastTelemetry, id, Name(EnvTempC), FiniteOrNull));
    violations :=
      AddIf(violations, !PercentOrNone(row.heatPercent),
            Violation(RoastTelemetry, id, Name(HeatPercent), IntegerPercent));
    violations :=
      AddIf(violations, !PercentOrNone(row.fanPercent),
            Violation(RoastTelemetry, id, Name(FanPercent), IntegerPercent));
    violations :=
      AddIf(violations, !FiniteOrNone(row.rorCPerMin), Violation(RoastTelemetry, id, Name(RorCPerMin), FiniteOrNull));
  }

  method ValidateTelemetry(row: Telemetry, isIP: string -> bool) returns (violations: seq<Violation>)
    ensures forall v :: v in violations
                        <==> v == Violation(RoastTelemetry, row.roastId, v.field, v.rule)
                             && TelemetryRule(row, isIP, v.field, v.rule)
    ensures violations == [] <==> TelemetryOk(row, isIP)
  {
    hide Name, Columns, RawIpField, NoRawIpCells, VariantRule, CleanVariant, ReadingRule, ReadingsOk, IsFahrenheitKey,
      TelemetryCell;
    var addresses := FindRawIpFields(RoastTelemetry, row.roastId, c => TelemetryCell(row, c), isIP);
    var readings := ValidateReadings(row);
    var named := FindFahrenheitColumns(RoastTelemetry, row.roastId);
    var variant := FindVariantPaths(RoastTelemetry, row.roastId, row.raw, "raw", isIP);
    violations := addresses + readings + named + variant;
  }

  // ----- roast_artifacts

  function ArtifactIdentity(row: Artifact): string {
    if row.id.Some? then row.id.value else row.roastId
  }

  ghost predicate ArtifactRule(row: Artifact, isIP: string -> bool, field: string, rule: Rule) {
    match rule
    case NoRawIp => RawIpField(RoastArtifacts, c => ArtifactCell(row, c), field, isIP)
    case AllowedKind => field == Name(Kind) && row.kind !in ARTIFACT_KINDS
    case NonEmptyPath => field == Name(StagePath) && row.stagePath == ""
    case _ => false
  }

  ghost predicate ArtifactOk(row: Artifact, isIP: string -> bool) {
    && NoRawIpCells(RoastArtifacts, c => ArtifactCell(row, c), isIP)
    && row.kind in ARTIFACT_KINDS && row.stagePath != ""
  }

  method ValidateArtifactRow(row: Artifact, isIP: string -> bool) returns (violations: seq<Violation>)
    ensures forall v :: v in violations
                        <==> v == Violation(RoastArtifacts, ArtifactIdentity(row), v.field, v.rule)
                             && ArtifactRule(row, isIP, v.field, v.rule)
    ensures violations == [] <==> ArtifactOk(row, isIP)
  {
    hide Name, Columns, RawIpField, NoRawIpCells, VariantRule, CleanVariant, InRange, IsCloudRoastId, IsValidSlug,
      IsIpHash, DateParse, RoastCell, TelemetryCell, ArtifactCell, ReviewCell, SummaryCell, IsFahrenheitKey,
      PercentOrNone, FiniteOrNone;
    var identity := ArtifactIdentity(row);
    violations := FindRawIpFields(RoastArtifacts, identity, c => ArtifactCell(row, c), isIP);
    violations :=
      AddIf(violations, row.kind !in ARTIFACT_KINDS, Violation(RoastArtifacts, identity, Name(Kind), AllowedKind));
    violations :=
      AddIf(violations, row.stagePath == "", Violation(RoastArtifacts, identity, Name(StagePath), NonEmptyPath));
  }

  // ----- tasting_reviews

  function ReviewIdentity(row: Review): string {
    if row.id.Some? then row.id.value else row.roastId
  }

  function Slider(row: Review, c: Column): Option<Num> {
    match c
    case Aroma => row.aroma
    case Acidity => row.acidity
    case Sweetness => row.sweetness
    case Body => row.body
    case Aftertaste => row.aftertaste
    case _ => None
  }

  const SLIDERS := [Aroma, Acidity, Sweetness, Body, Aftertaste]

  /** An IP hash may be kept only while its row is younger than the retention period. */
  predicate RetentionOk(row: Review, now: int) {
    row.submittedIpHash.Some? ==>
      var created := DateParse(row.createdAt);
      created.Some? && created.value <= now && now - created.value < IP_RETENTION_MS
  }

  ghost predicate ReviewRule(row: Review, now: int, isIP: string -> bool, field: string, rule: Rule) {
    var created := DateParse(row.createdAt);
    match rule
    case NoRawIp => RawIpField(TastingReviews, c => ReviewCell(row, c), field, isIP)
    case ScoreRange => field == Name(Score) && !InRange(row.score, 1, 5)
    case SliderRange => exists c :: c in SLIDERS && !PercentOrNone(Slider(row, c)) && field == Name(c)
    case HexHash =>
      field == Name(SubmittedIpHash) && row.submittedIpHash.Some? && !IsIpHash(row.submittedIpHash.value)
    case CreatedAtParseable => field == Name(CreatedAt) && row.submittedIpHash.Some? && created.None?
    case CreatedNotAfterNow =>
      field == Name(CreatedAt) && row.submittedIpHash.Some? && created.Some? && created.value > now
    case PurgedHash =>
      field == Name(SubmittedIpHash) && row.submittedIpHash.Some? && created.Some? && created.value <= now
      && now - created.value >= IP_RETENTION_MS
    case _ => false
  }

  ghost predicate ReviewOk(row: Review, now: int, isIP: string -> bool) {
    && NoRawIpCells(TastingReviews, c => ReviewCell(row, c), isIP)
    && InRange(row.score, 1, 5)
    && (forall c :: c in SLIDERS ==> PercentOrNone(Slider(row, c)))
    && (row.submittedIpHash.Some? ==> IsIpHash(row.submittedIpHash.value))
    && RetentionOk(row, now)
  }

  method FindSliders(row: Review, identity: string) returns (violations: seq<Violation>)
    ensures forall v :: v in violations
                        <==> v == Violation(TastingReviews, identity, v.field, SliderRange)
                             && exists c :: c in SLIDERS && !PercentOrNone(Slider(row, c)) && v.field == Name(c)
    ensures violations == [] <==> forall c :: c in SLIDERS ==> PercentOrNone(Slider(row, c))
  {
    violations := [];
    for i := 0 to |SLIDERS|
      invariant forall v :: v in violations
                            <==> exists c :: c in SLIDERS[..i] && !PercentOrNone(Slider(row, c))
                                             && v == Violation(TastingReviews, identity, Name(c), SliderRange)
      invariant violations == [] <==> forall c :: c in SLIDERS[..i] ==> PercentOrNone(Slider(row, c))
    {
      assert SLIDERS[..i + 1] == SLIDERS[..i] + [SLIDERS[i]];
      if !PercentOrNone(Slider(row, SLIDERS[i])) {
        violations := violations + [Violation(TastingReviews, identity, Name(SLIDERS[i]), SliderRange)];
      }
    }
    assert SLIDERS[..|SLIDERS|] == SLIDERS;
  }

  /** The part of ReviewRule that concerns a stored IP hash. */
  ghost predicate HashRule(row: Review, now: int, field: string, rule: Rule) {
    rule in {HexHash, CreatedAtParseable, CreatedNotAfterNow, PurgedHash}
    && ReviewRule(row, now, _ => false, field, rule)
  }

  method ValidateHash(row: Review, now: int, identity: string) returns (violations: seq<Violation>)
    ensures forall v :: v in violations
                        <==> v == Violation(TastingReviews, identity, v.field, v.rule)
                             && HashRule(row, now, v.field, v.rule)
    ensures violations == []
            <==> RetentionOk(row, now) && (row.submittedIpHash.Some? ==> IsIpHash(row.submittedIpHash.value))
  {
    hide Name, IsIpHash, DateParse, ReviewCell, InRange;
    violations := [];
    if row.submittedIpHash.Some? {
      if !IsIpHash(row.submittedIpHash.value) {
        violations := [Violation(TastingReviews, identity, Name(SubmittedIpHash), HexHash)];
      }
      var created := DateParse(row.createdAt);
      if created.None? {
        violations := violations + [Violation(TastingReviews, identity, Name(CreatedAt), CreatedAtParseable)];
      } else if created.value > now {
        violations := violations + [Violation(TastingReviews, identity, Name(CreatedAt), CreatedNotAfterNow)];
      } else if now - created.value >= IP_RETENTION_MS {
        violations := violations + [Violation(TastingReviews, identity, Name(SubmittedIpHash), PurgedHash)];
      }
    }
  }

  method ValidateReview(row: Review, now: int, isIP: string -> bool) returns (violations: seq<Violation>)
    ensures forall v :: v in violations
                        <==> v == Violation(TastingReviews, ReviewIdentity(row), v.field, v.rule)
                             && ReviewRule(row, now, isIP, v.field, v.rule)
    ensures violations == [] <==> ReviewOk(row, now, isIP)
  {
    hide Name, Columns, RawIpField, NoRawIpCells, VariantRule, CleanVariant, InRange, IsCloudRoastId, IsValidSlug,
      IsIpHash, DateParse, RoastCell, TelemetryCell, ArtifactCell, ReviewCell, SummaryCell, IsFahrenheitKey,
      PercentOrNone, FiniteOrNone;
    var identity := ReviewIdentity(row);
    violations := FindRawIpFields(TastingReviews, identity, c => ReviewCell(row, c), isIP);
    violations :=
      AddIf(violations, !InRange(row.score, 1, 5), Violation(TastingReviews, identity, Name(Score), ScoreRange));
    var sliders := FindSliders(row, identity);
    violations := violations + sliders;
    var hashed := ValidateHash(row, now, identity);
    violations := violations + hashed;
  }

  // ----- reference_roast_summaries

  function GroupText(row: ReferenceSummary): string {
    row.beanOrigin + "|" + row.roastLevel
  }

  ghost predicate SummaryRule(row: ReferenceSummary, isIP: string -> bool, field: string, rule: Rule) {
    match rule
    case NoRawIp => RawIpField(ReferenceRoastSummaries, c => SummaryCell(row, c), field, isIP)
    case EmptyKeyPatterns => field == Name(KeyPatterns) && row.keyPatterns !in {JNull, JArr([])}
    case _ => false
  }

  ghost predicate SummaryOk(row: ReferenceSummary, isIP: string -> bool) {
    NoRawIpCells(ReferenceRoastSummaries, c => SummaryCell(row, c), isIP) && row.keyPatterns in {JNull, JArr([])}
  }

  method ValidateSummary(row: ReferenceSummary, isIP: string -> bool) returns (violations: seq<Violation>)
    ensures forall v :: v in violations
                        <==> v == Violation(ReferenceRoastSummaries, GroupText(row), v.field, v.rule)
                             && SummaryRule(row, isIP, v.field, v.rule)
    ensures violations == [] <==> SummaryOk(row, isIP)
  {
    violations := FindRawIpFields(ReferenceRoastSummaries, GroupText(row), c => SummaryCell(row, c), isIP);
    violations :=
      AddIf(violations, row.keyPatterns != JNull && row.keyPatterns != JArr([]),
            Violation(ReferenceRoastSummaries, GroupText(row), Name(KeyPatterns), EmptyKeyPatterns));
  }
}

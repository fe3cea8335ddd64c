/** Fanning parsed roast exports out into the five synthetic seed tables. */
module SeedGenerate {
  import opened Wrappers
  import opened Sequences
  import opened IsoTime
  import opened JsonTrees
  import opened SeededRandom
  import opened SeedTypes
  import opened SeedRules
  import opened SeedRelations

  // ----- Parsed exports

  datatype ParsedTelemetry = ParsedTelemetry(
    monotonicSeconds: real, beanTempC: real, envTempC: real, heatLevelPercent: int, fanLevelPercent: int)

  datatype Metrics = Metrics(
    beanRorCPerMin: real, envRorCPerMin: real, beanTempDelta60sC: real, envTempDelta60sC: real,
    roastElapsedSeconds: real)

  datatype ParsedSummary = ParsedSummary(
    developmentTimePercent: real, developmentTimeSeconds: real, totalRoastSeconds: real,
    startedAtUtc: string, firstCrackAtUtc: string, beansAddedAtUtc: string, beansDroppedAtUtc: string,
    metrics: Metrics, confidence: real, confidenceThreshold: real)

  datatype ParsedExport = ParsedExport(summary: ParsedSummary, telemetry: seq<ParsedTelemetry>)

  predicate ValidTelemetryRow(t: ParsedTelemetry) {
    t.monotonicSeconds >= 0.0 && 0 <= t.heatLevelPercent <= 100 && 0 <= t.fanLevelPercent <= 100
  }

  /** What the export parser guarantees of everything it returns. */
  predicate ValidExport(e: ParsedExport) {
    && StrictIso(e.summary.startedAtUtc) && StrictIso(e.summary.firstCrackAtUtc)
    && StrictIso(e.summary.beansAddedAtUtc) && StrictIso(e.summary.beansDroppedAtUtc)
    && 0.0 <= e.summary.confidence <= 1.0
    && forall i :: 0 <= i < |e.telemetry| ==> ValidTelemetryRow(e.telemetry[i])
  }

  // ----- Constants

  const BEAN_ORIGINS := ["Ethiopia Yirgacheffe", "Colombia Huila", "Brazil Cerrado", "Guatemala Antigua"]
  const ROAST_LEVELS := ["light", "medium", "dark"]
  const FIXED_SEED := 0x312c2
  const ROAST_COUNT := 24
  const MAX_TELEMETRY_ROWS_PER_ROAST := 50
  const RETENTION_SAFE_SECONDS := 20 * 24 * 60 * 60

  // ----- The closed lifecycle summary

  datatype Perturbation = Perturbation(temperatureOffsetC: real, controlOffset: int, confidenceOffset: real)

  datatype ClosedSummary = ClosedSummary(
    developmentTimePercent: real, developmentTimeSeconds: real, totalRoastSeconds: real,
    beansAddedAtUtc: string, firstCrackAtUtc: string, beansDroppedAtUtc: string, startedAtUtc: string,
    metrics: Metrics, confidence: real, confidenceThreshold: real)

  function SummaryJson(c: ClosedSummary): Json {
    JObj([
      Field("development_time_percent", JNum(c.developmentTimePercent)),
      Field("development_time_seconds", JNum(c.developmentTimeSeconds)),
      Field("total_roast_seconds", JNum(c.totalRoastSeconds)),
      Field("beans_added_at_utc", JStr(c.beansAddedAtUtc)),
      Field("first_crack_at_utc", JStr(c.firstCrackAtUtc)),
      Field("beans_dropped_at_utc", JStr(c.beansDroppedAtUtc)),
      Field("started_at_utc", JStr(c.startedAtUtc)),
      Field("metrics", MetricsJson(c.metrics)),
      Field("first_crack_model", ModelJson(c))])
  }

  function MetricsJson(m: Metrics): Json {
    JObj([
      Field("bean_ror_c_per_min", JNum(m.beanRorCPerMin)),
      Field("env_ror_c_per_min", JNum(m.envRorCPerMin)),
      Field("bean_temp_delta_60s_c", JNum(m.beanTempDelta60sC)),
      Field("env_temp_delta_60s_c", JNum(m.envTempDelta60sC)),
      Field("roast_elapsed_seconds", JNum(m.roastElapsedSeconds))])
  }

  function ModelJson(c: ClosedSummary): Json {
    JObj([Field("confidence", JNum(c.confidence)), Field("confidence_threshold", JNum(c.confidenceThreshold))])
  }

  function ClampReal(v: real, min: real, max: real): real {
    var low := if min < v then v else min;
    if low < max then low else max
  }

  function ClampInt(v: int, min: int, max: int): int {
    var low := if min < v then v else min;
    if low < max then low else max
  }

  /** A microsecond instant between 1970 and 9999. */
  predicate FourDigitInstant(v: int) {
    0 <= v < YEAR_10000 * 1_000_000
  }

  lemma FourDigitInstantPrints(v: int)
    requires FourDigitInstant(v)
    ensures FourDigitYear(TruncDiv(v, 1_000_000)) && v >= 0
  {
    assert v / 1_000_000 < YEAR_10000;
    assert YEAR_0 < 0;
  }

  predicate ShiftFits(iso: string, offset: int) {
    EpochMicroseconds(iso).Some? && FourDigitInstant(EpochMicroseconds(iso).value + offset)
  }

  /** The offset that moves a lifecycle's start onto the roast time. */
  function LifecycleOffset(source: ParsedSummary, roastedAt: string): int
    requires EpochMicroseconds(roastedAt).Some? && EpochMicroseconds(source.startedAtUtc).Some?
  {
    EpochMicroseconds(roastedAt).value - EpochMicroseconds(source.startedAtUtc).value
  }

  /** The whole lifecycle stays between 1970 and 9999 when its start moves to `roastedAt`. */
  predicate LifecycleFits(source: ParsedSummary, roastedAt: string) {
    && EpochMicroseconds(roastedAt).Some? && EpochMicroseconds(source.startedAtUtc).Some?
    && var offset := LifecycleOffset(source, roastedAt);
       && ShiftFits(source.startedAtUtc, offset) && ShiftFits(source.firstCrackAtUtc, offset)
       && ShiftFits(source.beansAddedAtUtc, offset) && ShiftFits(source.beansDroppedAtUtc, offset)
  }

  function Shifted(iso: string, offset: int): string
    requires ShiftFits(iso, offset)
  {
    FourDigitInstantPrints(EpochMicroseconds(iso).value + offset);
    ShiftIso(iso, offset).value
  }

  function CloseSummary(source: ParsedSummary, roastedAt: string, perturbation: Perturbation): ClosedSummary
    requires LifecycleFits(source, roastedAt)
  {
    var offset := LifecycleOffset(source, roastedAt);
    ClosedSummary(
      source.developmentTimePercent, source.developmentTimeSeconds, source.totalRoastSeconds,
      Shifted(source.beansAddedAtUtc, offset), Shifted(source.firstCrackAtUtc, offset),
      Shifted(source.beansDroppedAtUtc, offset), Shifted(source.startedAtUtc, offset),
      source.metrics, ClampReal(source.confidence + perturbation.confidenceOffset, 0.0, 1.0),
      source.confidenceThreshold)
  }

  /** A shifted timestamp reads back as exactly the shifted instant, and is a strict timestamp. */
  lemma ShiftedExactly(iso: string, offset: int)
    requires ShiftFits(iso, offset)
    ensures EpochMicroseconds(Shifted(iso, offset)) == Some(EpochMicroseconds(iso).value + offset)
    ensures StrictIso(Shifted(iso, offset))
  {
    hide EpochMicroseconds, StrictIso, IsoFromEpochMicroseconds, FourDigitYear, TruncDiv;
    var v := EpochMicroseconds(iso).value + offset;
    FourDigitInstantPrints(v);
    IsoRoundTripFromEpoch(v);
  }

  function Micros(iso: string): int
    requires EpochMicroseconds(iso).Some?
  {
    EpochMicroseconds(iso).value
  }

  /** The start lands exactly on the roast time and every interval survives to the microsecond. */
  lemma LifecyclePreserved(source: ParsedSummary, roastedAt: string, perturbation: Perturbation)
    requires LifecycleFits(source, roastedAt)
    ensures var c := CloseSummary(source, roastedAt, perturbation);
            && StrictIso(c.startedAtUtc) && StrictIso(c.firstCrackAtUtc)
            && StrictIso(c.beansAddedAtUtc) && StrictIso(c.beansDroppedAtUtc)
            && EpochMicroseconds(c.startedAtUtc) == EpochMicroseconds(roastedAt)
            && EpochMicroseconds(c.firstCrackAtUtc)
               == Some(Micros(roastedAt) + (Micros(source.firstCrackAtUtc) - Micros(source.startedAtUtc)))
            && EpochMicroseconds(c.beansAddedAtUtc)
               == Some(Micros(roastedAt) + (Micros(source.beansAddedAtUtc) - Micros(source.startedAtUtc)))
            && EpochMicroseconds(c.beansDroppedAtUtc)
               == Some(Micros(roastedAt) + (Micros(source.beansDroppedAtUtc) - Micros(source.startedAtUtc)))
  {
    hide EpochMicroseconds, StrictIso, Shifted;
    var offset := LifecycleOffset(source, roastedAt);
    ShiftedExactly(source.startedAtUtc, offset);
    ShiftedExactly(source.firstCrackAtUtc, offset);
    ShiftedExactly(source.beansAddedAtUtc, offset);
    ShiftedExactly(source.beansDroppedAtUtc, offset);
  }

  /** A confidence moved by an offset: by all of it where that stays from 0 to 1, else to the nearer bound. */
  predicate NudgedConfidence(v: real, confidence: real, offset: real) {
    && (0.0 <= confidence + offset <= 1.0 ==> v == confidence + offset)
    && (confidence + offset < 0.0 ==> v == 0.0)
    && (confidence + offset > 1.0 ==> v == 1.0)
  }

  /** The timestamp under a key, if it is a strict one. */
  function InstantUnder(summary: Json, key: string): Option<int> {
    var p := Property(summary, key);
    if p.Some? && p.value.JStr? && StrictIso(p.value.s) then EpochMicroseconds(p.value.s) else None
  }

  /** The instant of a lifecycle event is as far from the roast time as in the source from the start. */
  predicate EventFollows(summary: Json, key: string, roastedAt: string, event: string, startedAt: string) {
    && EpochMicroseconds(roastedAt).Some? && EpochMicroseconds(event).Some? && EpochMicroseconds(startedAt).Some?
    && InstantUnder(summary, key) == Some(Micros(roastedAt) + (Micros(event) - Micros(startedAt)))
  }

  /** What a roast's summary is to the export it comes from, key by key. */
  predicate SummaryFollows(summary: Json, source: ParsedSummary, roastedAt: string, p: Perturbation) {
    && Property(summary, "development_time_percent") == Some(JNum(source.developmentTimePercent))
    && Property(summary, "development_time_seconds") == Some(JNum(source.developmentTimeSeconds))
    && Property(summary, "total_roast_seconds") == Some(JNum(source.totalRoastSeconds))
    && EventFollows(summary, "started_at_utc", roastedAt, source.startedAtUtc, source.startedAtUtc)
    && EventFollows(summary, "beans_added_at_utc", roastedAt, source.beansAddedAtUtc, source.startedAtUtc)
    && EventFollows(summary, "first_crack_at_utc", roastedAt, source.firstCrackAtUtc, source.startedAtUtc)
    && EventFollows(summary, "beans_dropped_at_utc", roastedAt, source.beansDroppedAtUtc, source.startedAtUtc)
    && Property(summary, "metrics").Some? && MetricsFollow(Property(summary, "metrics").value, source.metrics)
    && Property(summary, "first_crack_model").Some?
    && ModelFollows(Property(summary, "first_crack_model").value, source, p)
  }

  predicate MetricsFollow(metrics: Json, m: Metrics) {
    && Property(metrics, "bean_ror_c_per_min") == Some(JNum(m.beanRorCPerMin))
    && Property(metrics, "env_ror_c_per_min") == Some(JNum(m.envRorCPerMin))
    && Property(metrics, "bean_temp_delta_60s_c") == Some(JNum(m.beanTempDelta60sC))
    && Property(metrics, "env_temp_delta_60s_c") == Some(JNum(m.envTempDelta60sC))
    && Property(metrics, "roast_elapsed_seconds") == Some(JNum(m.roastElapsedSeconds))
  }

  predicate ModelFollows(model: Json, source: ParsedSummary, p: Perturbation) {
    && Property(model, "confidence_threshold") == Some(JNum(source.confidenceThreshold))
    && Property(model, "confidence").Some? && Property(model, "confidence").value.JNum?
    && NudgedConfidence(Property(model, "confidence").value.n, source.confidence, p.confidenceOffset)
  }

  lemma {:induction false} LookupAt(fields: seq<Field>, k: nat)
    requires k < |fields| && forall i :: 0 <= i < k ==> fields[i].key != fields[k].key
    ensures Lookup(fields, fields[k].key) == Some(fields[k].value)
  {
    if k > 0 { LookupAt(fields[1..], k - 1); }
  }

  lemma MetricsProperties(m: Metrics)
    ensures MetricsFollow(MetricsJson(m), m)
  {
    var fields := MetricsJson(m).fields;
    LookupAt(fields, 0);
    LookupAt(fields, 1);
    LookupAt(fields, 2);
    LookupAt(fields, 3);
    LookupAt(fields, 4);
  }

  lemma ModelProperties(c: ClosedSummary, source: ParsedSummary, p: Perturbation)
    requires c.confidenceThreshold == source.confidenceThreshold
    requires NudgedConfidence(c.confidence, source.confidence, p.confidenceOffset)
    ensures ModelFollows(ModelJson(c), source, p)
  {
    var fields := ModelJson(c).fields;
    LookupAt(fields, 0);
    LookupAt(fields, 1);
  }

  lemma FigureProperties(c: ClosedSummary)
    ensures Property(SummaryJson(c), "development_time_percent") == Some(JNum(c.developmentTimePercent))
    ensures Property(SummaryJson(c), "development_time_seconds") == Some(JNum(c.developmentTimeSeconds))
    ensures Property(SummaryJson(c), "total_roast_seconds") == Some(JNum(c.totalRoastSeconds))
  {
    hide MetricsJson, ModelJson;
    var fields := SummaryJson(c).fields;
    LookupAt(fields, 0);
    LookupAt(fields, 1);
    LookupAt(fields, 2);
  }

  lemma TimeProperties(c: ClosedSummary)
    ensures Property(SummaryJson(c), "beans_added_at_utc") == Some(JStr(c.beansAddedAtUtc))
    ensures Property(SummaryJson(c), "first_crack_at_utc") == Some(JStr(c.firstCrackAtUtc))
    ensures Property(SummaryJson(c), "beans_dropped_at_utc") == Some(JStr(c.beansDroppedAtUtc))
    ensures Property(SummaryJson(c), "started_at_utc") == Some(JStr(c.startedAtUtc))
  {
    hide MetricsJson, ModelJson;
    var fields := SummaryJson(c).fields;
    LookupAt(fields, 3);
    LookupAt(fields, 4);
    LookupAt(fields, 5);
    LookupAt(fields, 6);
  }

  lemma PartProperties(c: ClosedSummary)
    ensures Property(SummaryJson(c), "metrics") == Some(MetricsJson(c.metrics))
    ensures Property(SummaryJson(c), "first_crack_model") == Some(ModelJson(c))
  {
    hide MetricsJson, ModelJson;
    var fields := SummaryJson(c).fields;
    LookupAt(fields, 7);
    LookupAt(fields, 8);
  }

  lemma EventsFollow(source: ParsedSummary, roastedAt: string, p: Perturbation)
    requires LifecycleFits(source, roastedAt)
    ensures var summary := SummaryJson(CloseSummary(source, roastedAt, p));
            && EventFollows(summary, "started_at_utc", roastedAt, source.startedAtUtc, source.startedAtUtc)
            && EventFollows(summary, "beans_added_at_utc", roastedAt, source.beansAddedAtUtc, source.startedAtUtc)
            && EventFollows(summary, "first_crack_at_utc", roastedAt, source.firstCrackAtUtc, source.startedAtUtc)
            && EventFollows(summary, "beans_dropped_at_utc", roastedAt, source.beansDroppedAtUtc, source.startedAtUtc)
  {
    hide EpochMicroseconds, StrictIso, CloseSummary, SummaryJson;
    TimeProperties(CloseSummary(source, roastedAt, p));
    LifecyclePreserved(source, roastedAt, p);
  }

  /** Every figure, event and nested value of a closed summary is its source's, moved as it should be. */
  lemma ClosedFollows(source: ParsedSummary, roastedAt: string, p: Perturbation)
    requires LifecycleFits(source, roastedAt)
    ensures SummaryFollows(SummaryJson(CloseSummary(source, roastedAt, p)), source, roastedAt, p)
  {
    hide EpochMicroseconds, StrictIso, SummaryJson, EventFollows, MetricsFollow, ModelFollows, Shifted, LifecycleFits;
    var c := CloseSummary(source, roastedAt, p);
    FigureProperties(c);
    EventsFollow(source, roastedAt, p);
    PartProperties(c);
    MetricsProperties(c.metrics);
    ModelProperties(c, source, p);
  }

  // ----- Rows

  predicate GenerationTimeFits(nowMs: int) {
    RETENTION_SAFE_SECONDS * 1000 <= nowMs < YEAR_10000 * 1000
  }

  predicate OffsetStaysFourDigit(iso: string, startedAt: string, nowMs: int) {
    && EpochMicroseconds(iso).Some? && EpochMicroseconds(startedAt).Some?
    && var distance := Micros(iso) - Micros(startedAt);
       && FourDigitInstant(1000 * (nowMs - RETENTION_SAFE_SECONDS * 1000) + distance)
       && FourDigitInstant(1000 * nowMs + distance)
  }

  /** Wherever in the window before `nowMs` the roast lands, its lifecycle stays between 1970 and 9999. */
  predicate LifecycleWindowFits(source: ParsedSummary, nowMs: int) {
    && OffsetStaysFourDigit(source.startedAtUtc, source.startedAtUtc, nowMs)
    && OffsetStaysFourDigit(source.firstCrackAtUtc, source.startedAtUtc, nowMs)
    && OffsetStaysFourDigit(source.beansAddedAtUtc, source.startedAtUtc, nowMs)
    && OffsetStaysFourDigit(source.beansDroppedAtUtc, source.startedAtUtc, nowMs)
  }

  lemma WindowFits(source: ParsedSummary, nowMs: int, ms: int)
    requires LifecycleWindowFits(source, nowMs) && nowMs - RETENTION_SAFE_SECONDS * 1000 <= ms <= nowMs
    requires FourDigitYear(ms / 1000)
    ensures LifecycleFits(source, ToIsoString(ms))
  {
    hide EpochMicroseconds, ToIsoString;
    ToIsoStringRoundTrip(ms);
  }

  /** A clock reading between two others, as generated text. */
  ghost predicate StampedBetween(text: string, low: int, high: int) {
    exists ms :: low <= ms <= high && FourDigitYear(ms / 1000) && text == ToIsoString(ms)
  }

  lemma WindowYears(ms: int, nowMs: int)
    requires GenerationTimeFits(nowMs) && 0 <= ms <= nowMs
    ensures FourDigitYear(ms / 1000)
  {
    assert YEAR_0 < 0;
  }

  method RelativeIso(nowMs: int, rng: SeededRng) returns (iso: string, ghost ms: int)
    requires GenerationTimeFits(nowMs) && rng.state + INCREMENT < EXACT_LIMIT
    modifies rng`state
    ensures rng.state == old(rng.state) + INCREMENT
    ensures nowMs - RETENTION_SAFE_SECONDS * 1000 <= ms <= nowMs
    ensures ms == nowMs - 1000 * Picked(Nth(old(rng.state), 1), 0, RETENTION_SAFE_SECONDS)
    ensures FourDigitYear(ms / 1000) && iso == ToIsoString(ms)
  {
    hide ToIsoString, Picked, Nth;
    var offsetSeconds := rng.RandomInteger(0, RETENTION_SAFE_SECONDS);
    WindowYears(nowMs - offsetSeconds * 1000, nowMs);
    iso := ToIsoString(nowMs - offsetSeconds * 1000);
    ms := nowMs - offsetSeconds * 1000;
  }

  method ChildCreatedIso(parentCreatedMs: int, nowMs: int, rng: SeededRng) returns (iso: string, ghost ms: int)
    requires GenerationTimeFits(nowMs) && 0 <= parentCreatedMs <= nowMs && rng.state + INCREMENT < EXACT_LIMIT
    modifies rng`state
    ensures rng.state == old(rng.state) + INCREMENT
    ensures parentCreatedMs <= ms <= nowMs && FourDigitYear(ms / 1000) && iso == ToIsoString(ms)
    ensures ms == Picked(Nth(old(rng.state), 1), parentCreatedMs, nowMs)
  {
    var draw := rng.Draw();
    var childMs := parentCreatedMs + Scaled(draw, nowMs - parentCreatedMs + 1);
    WindowYears(childMs, nowMs);
    iso := ToIsoString(childMs);
    ms := childMs;
  }

  /** Three draws: a temperature offset, a whole control offset, a confidence offset. */
  function DrawnPerturbation(state: nat): Perturbation {
    Perturbation(Nth(state, 1) * 10.0 - 5.0, Picked(Nth(state, 2), -5, 5), Nth(state, 3) * 0.06 - 0.03)
  }

  method CreatePerturbation(rng: SeededRng) returns (p: Perturbation)
    requires rng.state + 3 * INCREMENT < EXACT_LIMIT
    modifies rng`state
    ensures rng.state == old(rng.state) + 3 * INCREMENT
    ensures ValidPerturbation(p) && p == DrawnPerturbation(old(rng.state))
  {
    hide Picked, Value;
    NextDraw(rng.state, 1);
    NextDraw(rng.state, 2);
    var temperature := rng.Draw();
    var control := rng.RandomInteger(-5, 5);
    var confidence := rng.Draw();
    p := Perturbation(temperature * 10.0 - 5.0, control, confidence * 0.06 - 0.03);
  }

  predicate ValidPerturbation(p: Perturbation) {
    && -5.0 <= p.temperatureOffsetC < 5.0 && -5 <= p.controlOffset <= 5
    && -0.03 <= p.confidenceOffset < 0.03
  }

  // Telemetry

  /** The least step that keeps within the allowed number of rows. */
  function SampleStep(n: nat): (step: nat)
    ensures step >= 1 && n <= step * MAX_TELEMETRY_ROWS_PER_ROAST
    ensures step > 1 ==> n > (step - 1) * MAX_TELEMETRY_ROWS_PER_ROAST
  {
    if n == 0 then 1 else (n + MAX_TELEMETRY_ROWS_PER_ROAST - 1) / MAX_TELEMETRY_ROWS_PER_ROAST
  }

  function RawJson(elapsed: real, bean: real, env: real, heat: int, fan: int): Json {
    JObj([
      Field("source", JStr("synthetic")), Field("sample_elapsed_s", JNum(elapsed)), Field("bean_temp_c", JNum(bean)),
      Field("env_temp_c", JNum(env)), Field("heat_percent", JNum(heat as real)),
      Field("fan_percent", JNum(fan as real))])
  }

  function PerturbedRow(sample: ParsedTelemetry, roastId: string, p: Perturbation): Telemetry {
    var bean := sample.beanTempC + p.temperatureOffsetC;
    var env := sample.envTempC + p.temperatureOffsetC;
    var heat := ClampInt(sample.heatLevelPercent + p.controlOffset, 0, 100);
    var fan := ClampInt(sample.fanLevelPercent - p.controlOffset, 0, 100);
    Telemetry(roastId, Fin(sample.monotonicSeconds), Some(Fin(bean)), Some(Fin(env)), Some(Fin(heat as real)),
              Some(Fin(fan as real)), None, RawJson(sample.monotonicSeconds, bean, env, heat, fan))
  }

  /** A control moved by an offset: by all of it where that stays a percentage, else to the nearer bound. */
  predicate NudgedPercent(v: Option<Num>, level: int, offset: int) {
    && (0 <= level + offset <= 100 ==> v == Some(Fin((level + offset) as real)))
    && (level + offset < 0 ==> v == Some(Fin(0.0)))
    && (level + offset > 100 ==> v == Some(Fin(100.0)))
  }

  /** The raw object repeats the columns of its row. */
  predicate RawRepeats(row: Telemetry) {
    && Property(row.raw, "source") == Some(JStr("synthetic"))
    && Property(row.raw, "sample_elapsed_s") == Some(NumberCell(Some(row.elapsedS)))
    && Property(row.raw, "bean_temp_c") == Some(NumberCell(row.beanTempC))
    && Property(row.raw, "env_temp_c") == Some(NumberCell(row.envTempC))
    && Property(row.raw, "heat_percent") == Some(NumberCell(row.heatPercent))
    && Property(row.raw, "fan_percent") == Some(NumberCell(row.fanPercent))
  }

  /** What a telemetry row is to the sample it comes from: both temperatures moved alike, the controls apart. */
  predicate FollowsSample(row: Telemetry, sample: ParsedTelemetry, roastId: string, p: Perturbation) {
    && row.roastId == roastId
    && row.elapsedS == Fin(sample.monotonicSeconds)
    && row.beanTempC == Some(Fin(sample.beanTempC + p.temperatureOffsetC))
    && row.envTempC == Some(Fin(sample.envTempC + p.temperatureOffsetC))
    && NudgedPercent(row.heatPercent, sample.heatLevelPercent, p.controlOffset)
    && NudgedPercent(row.fanPercent, sample.fanLevelPercent, -p.controlOffset)
    && row.rorCPerMin == None
    && RawRepeats(row)
  }

  lemma PerturbedFollows(sample: ParsedTelemetry, roastId: string, p: Perturbation)
    ensures FollowsSample(PerturbedRow(sample, roastId, p), sample, roastId, p)
  {
    var row := PerturbedRow(sample, roastId, p);
    RawProperties(sample.monotonicSeconds, row.beanTempC.value.value, row.envTempC.value.value,
                  ClampInt(sample.heatLevelPercent + p.controlOffset, 0, 100),
                  ClampInt(sample.fanLevelPercent - p.controlOffset, 0, 100));
  }

  lemma RawProperties(elapsed: real, bean: real, env: real, heat: int, fan: int)
    ensures var raw := RawJson(elapsed, bean, env, heat, fan);
            && Property(raw, "source") == Some(JStr("synthetic"))
            && Property(raw, "sample_elapsed_s") == Some(JNum(elapsed))
            && Property(raw, "bean_temp_c") == Some(JNum(bean))
            && Property(raw, "env_temp_c") == Some(JNum(env))
            && Property(raw, "heat_percent") == Some(JNum(heat as real))
            && Property(raw, "fan_percent") == Some(JNum(fan as real))
  {
    var fields := RawJson(elapsed, bean, env, heat, fan).fields;
    LookupAt(fields, 0);
    LookupAt(fields, 1);
    LookupAt(fields, 2);
    LookupAt(fields, 3);
    LookupAt(fields, 4);
    LookupAt(fields, 5);
  }

  /** The rows are the perturbed samples at every multiple of the step, and no others. */
  ghost predicate TelemetryFrom(rows: seq<Telemetry>, samples: seq<ParsedTelemetry>, roastId: string, p: Perturbation) {
    var step := SampleStep(|samples|);
    && |rows| <= MAX_TELEMETRY_ROWS_PER_ROAST
    && (|rows| - 1) * step < |samples| <= |rows| * step
    && forall k :: 0 <= k < |rows| ==>
       && 0 <= k * step < |samples| && rows[k] == PerturbedRow(samples[k * step], roastId, p)
       && FollowsSample(rows[k], samples[k * step], roastId, p)
  }

  lemma NextMultiple(i: nat, rows: nat, step: nat)
    requires step >= 1 && (rows - 1) * step < i <= rows * step
    ensures i % step == 0 <==> i == rows * step
  {
    if i == rows * step {
      RemainderUnique(i, step, rows, 0);
    } else {
      RemainderUnique(i, step, rows - 1, i - (rows - 1) * step);
    }
  }

  method PerturbTelemetry(samples: seq<ParsedTelemetry>, roastId: string, p: Perturbation)
    returns (rows: seq<Telemetry>)
    ensures TelemetryFrom(rows, samples, roastId, p)
  {
    hide PerturbedRow, FollowsSample, SampleStep;
    var step := SampleStep(|samples|);
    rows := [];
    for i := 0 to |samples|
      invariant (|rows| - 1) * step < i <= |rows| * step
      invariant forall k :: 0 <= k < |rows| ==>
                && 0 <= k * step < i && rows[k] == PerturbedRow(samples[k * step], roastId, p)
                && FollowsSample(rows[k], samples[k * step], roastId, p)
    {
      NextMultiple(i, |rows|, step);
      PerturbedFollows(samples[i], roastId, p);
      if i % step == 0 {
        rows := rows + [PerturbedRow(samples[i], roastId, p)];
      }
    }
    assert |rows| > MAX_TELEMETRY_ROWS_PER_ROAST ==> (|rows| - 1) * step >= MAX_TELEMETRY_ROWS_PER_ROAST * step;
  }

  // Artifacts and reviews

  ghost predicate ArtifactFrom(a: Artifact, i: nat, roast: CloudRoast, createdMs: int, nowMs: int) {
    && roast.id.Some? && i < |ARTIFACT_KINDS|
    && a.id == None && a.roastId == roast.id.value && a.kind == ARTIFACT_KINDS[i]
    && a.stagePath == roast.idempotencyKey + "/" + ARTIFACT_KINDS[i]
    && (if i % 2 == 0 then a.byteSize.Some? && InRange(a.byteSize.value, 1024, 65536) else a.byteSize == None)
    && StampedBetween(a.createdAt, createdMs, nowMs)
  }

  /** How many draws the first `i` artifacts take: two for those with a size, one for the others. */
  function ArtifactDraws(i: nat): nat {
    i + (i + 1) / 2
  }

  /** An artifact's size and time are picked by the draws that follow `state`. */
  predicate ArtifactDrawn(a: Artifact, i: nat, createdMs: int, nowMs: int, state: nat)
    requires createdMs <= nowMs
  {
    var sized := i % 2 == 0;
    var ms := Picked(Nth(state + if sized then INCREMENT else 0, 1), createdMs, nowMs);
    && a.byteSize == DrawnInteger(state, sized, 1024, 65536)
    && FourDigitYear(ms / 1000) && a.createdAt == ToIsoString(ms)
  }

  method GenerateArtifact(i: nat, roast: CloudRoast, createdMs: int, nowMs: int, rng: SeededRng)
    returns (artifact: Artifact)
    requires roast.id.Some? && i < |ARTIFACT_KINDS|
    requires GenerationTimeFits(nowMs) && 0 <= createdMs <= nowMs && rng.state + 2 * INCREMENT < EXACT_LIMIT
    modifies rng`state
    ensures rng.state == old(rng.state) + (if i % 2 == 0 then 2 else 1) * INCREMENT
    ensures ArtifactFrom(artifact, i, roast, createdMs, nowMs)
    ensures ArtifactDrawn(artifact, i, createdMs, nowMs, old(rng.state))
  {
    hide ToIsoString, Picked, Nth, FourDigitYear;
    var byteSize := None;
    if i % 2 == 0 {
      var size := rng.RandomInteger(1024, 65536);
      byteSize := Some(Fin(size as real));
    }
    var createdAt, ms := ChildCreatedIso(createdMs, nowMs, rng);
    var kind := ARTIFACT_KINDS[i];
    artifact := Artifact(None, roast.id.value, kind, roast.idempotencyKey + "/" + kind, byteSize, createdAt);
  }

  method GenerateArtifacts(roast: CloudRoast, createdMs: int, nowMs: int, rng: SeededRng)
    returns (artifacts: seq<Artifact>)
    requires roast.id.Some?
    requires GenerationTimeFits(nowMs) && 0 <= createdMs <= nowMs && rng.state + 7 * INCREMENT < EXACT_LIMIT
    modifies rng`state
    ensures old(rng.state) <= rng.state <= old(rng.state) + 7 * INCREMENT
    ensures 1 <= |artifacts| <= |ARTIFACT_KINDS| && |artifacts| == Picked(Nth(old(rng.state), 1), 1, |ARTIFACT_KINDS|)
    ensures forall i :: 0 <= i < |artifacts| ==>
              && ArtifactFrom(artifacts[i], i, roast, createdMs, nowMs)
              && ArtifactDrawn(artifacts[i], i, createdMs, nowMs, old(rng.state) + (1 + ArtifactDraws(i)) * INCREMENT)
  {
    hide ArtifactFrom, ArtifactDrawn, GenerationTimeFits, Nth, Picked;
    artifacts := [];
    var count := rng.RandomInteger(1, |ARTIFACT_KINDS|);
    for i := 0 to count
      invariant |artifacts| == i
      invariant rng.state == old(rng.state) + (1 + ArtifactDraws(i)) * INCREMENT
      invariant forall k :: 0 <= k < i ==>
                && ArtifactFrom(artifacts[k], k, roast, createdMs, nowMs)
                && ArtifactDrawn(artifacts[k], k, createdMs, nowMs, old(rng.state) + (1 + ArtifactDraws(k)) * INCREMENT)
    {
      var artifact := GenerateArtifact(i, roast, createdMs, nowMs, rng);
      artifacts := artifacts + [artifact];
    }
  }

  /** The number that the next draw picks, where one is drawn at all. */
  function DrawnInteger(state: nat, present: bool, min: int, max: int): Option<Num>
    requires min <= max
  {
    if present then Some(Fin(Picked(Nth(state, 1), min, max) as real)) else None
  }

  ghost predicate PercentDraw(v: Option<Num>, present: bool) {
    if present then v.Some? && InRange(v.value, 0, 100) else v == None
  }

  ghost predicate ReviewFrom(r: Review, i: nat, roast: CloudRoast, createdMs: int, nowMs: int, digest: string -> string)
  {
    && roast.id.Some?
    && r.id == None && r.roastId == roast.id.value
    && r.reviewerName.Some? && r.reviewerName.value in SYNTHETIC_NAME_POOL
    && InRange(r.score, 1, 5)
    && PercentDraw(r.aroma, true) && PercentDraw(r.acidity, i % 3 != 0) && PercentDraw(r.sweetness, true)
    && PercentDraw(r.body, true) && PercentDraw(r.aftertaste, i % 2 != 0)
    && r.brewMethod == (if i % 2 == 0 then Some("Synthetic pourover") else None)
    && r.notes == None
    && (if i % 2 == 0 then
        r.submittedIpHash.Some? && exists token :: r.submittedIpHash.value == digest(SYNTHETIC_IP_TOKEN_PREFIX + token)
        else r.submittedIpHash == None)
    && StampedBetween(r.createdAt, createdMs, nowMs)
  }

  method DrawPercent(rng: SeededRng, present: bool) returns (v: Option<Num>)
    requires rng.state + INCREMENT < EXACT_LIMIT
    modifies rng`state
    ensures rng.state == old(rng.state) + if present then INCREMENT else 0
    ensures PercentDraw(v, present) && v == DrawnInteger(old(rng.state), present, 0, 100)
  {
    v := None;
    if present {
      var k := rng.RandomInteger(0, 100);
      v := Some(Fin(k as real));
    }
  }

  /** How many draws a review takes: six, one more for each optional slider, and a token's for a hash. */
  function ReviewDraws(i: nat): nat {
    6 + (if i % 3 != 0 then 1 else 0) + (if i % 2 != 0 then 1 else 0) + if i % 2 == 0 then TOKEN_LENGTH else 0
  }

  /** How many draws the first `i` reviews take. */
  function ReviewDrawsUpTo(i: nat): nat {
    if i == 0 then 0 else ReviewDrawsUpTo(i - 1) + ReviewDraws(i - 1)
  }

  /** Each field of a review is picked by a draw of its own, in order, counted from `state`. */
  ghost predicate ReviewDrawn(r: Review, i: nat, createdMs: int, nowMs: int, digest: string -> string, state: nat)
    requires createdMs <= nowMs
  {
    var sour, after, hashed := i % 3 != 0, i % 2 != 0, i % 2 == 0;
    var s4 := state + 3 * INCREMENT + if sour then INCREMENT else 0;
    var s7 := s4 + 2 * INCREMENT + if after then INCREMENT else 0;
    var ms := Picked(Nth(s7 + if hashed then TOKEN_LENGTH * INCREMENT else 0, 1), createdMs, nowMs);
    && r.reviewerName == Some(SYNTHETIC_NAME_POOL[Scaled(Nth(state, 1), 3)])
    && Some(r.score) == DrawnInteger(state + INCREMENT, true, 1, 5)
    && r.aroma == DrawnInteger(state + 2 * INCREMENT, true, 0, 100)
    && r.acidity == DrawnInteger(state + 3 * INCREMENT, sour, 0, 100)
    && r.sweetness == DrawnInteger(s4, true, 0, 100)
    && r.body == DrawnInteger(s4 + INCREMENT, true, 0, 100)
    && r.aftertaste == DrawnInteger(s4 + 2 * INCREMENT, after, 0, 100)
    && r.submittedIpHash
       == (if hashed then Some(digest(SYNTHETIC_IP_TOKEN_PREFIX + TokenFrom(s7, TOKEN_LENGTH))) else None)
    && FourDigitYear(ms / 1000) && r.createdAt == ToIsoString(ms)
  }

  lemma DrawnInRange(state: nat, min: int, max: int)
    requires min <= max
    ensures DrawnInteger(state, true, min, max).Some? && InRange(DrawnInteger(state, true, min, max).value, min, max)
  {
    hide Nth;
  }

  lemma DrawnReviewIsFrom(r: Review, i: nat, roast: CloudRoast, createdMs: int, nowMs: int, digest: string -> string,
                          state: nat)
    requires createdMs <= nowMs && ReviewDrawn(r, i, createdMs, nowMs, digest, state)
    requires roast.id.Some? && r.id == None && r.roastId == roast.id.value && r.notes == None
    requires r.brewMethod == (if i % 2 == 0 then Some("Synthetic pourover") else None)
    ensures ReviewFrom(r, i, roast, createdMs, nowMs, digest)
  {
    hide ToIsoString, Picked, Scaled, Nth, FourDigitYear, TokenFrom, InRange, DrawnInteger;
    var s4 := state + 3 * INCREMENT + if i % 3 != 0 then INCREMENT else 0;
    DrawnInRange(state + INCREMENT, 1, 5);
    DrawnInRange(state + 2 * INCREMENT, 0, 100);
    DrawnInRange(state + 3 * INCREMENT, 0, 100);
    DrawnInRange(s4, 0, 100);
    DrawnInRange(s4 + INCREMENT, 0, 100);
    DrawnInRange(s4 + 2 * INCREMENT, 0, 100);
    NothingDrawn(state + 3 * INCREMENT);
    NothingDrawn(s4 + 2 * INCREMENT);
  }

  lemma NothingDrawn(state: nat)
    ensures DrawnInteger(state, false, 0, 100) == None
  {
  }

  /** The five sliders of a review, in the order they are drawn. */
  method DrawSliders(i: nat, rng: SeededRng)
    returns (aroma: Option<Num>, acidity: Option<Num>, sweetness: Option<Num>, body: Option<Num>,
             aftertaste: Option<Num>)
    requires rng.state + 5 * INCREMENT < EXACT_LIMIT
    modifies rng`state
    ensures var state := old(rng.state);
            var s2 := state + INCREMENT + if i % 3 != 0 then INCREMENT else 0;
            && rng.state == s2 + 2 * INCREMENT + (if i % 2 != 0 then INCREMENT else 0)
            && aroma == DrawnInteger(state, true, 0, 100)
            && acidity == DrawnInteger(state + INCREMENT, i % 3 != 0, 0, 100)
            && sweetness == DrawnInteger(s2, true, 0, 100) && body == DrawnInteger(s2 + INCREMENT, true, 0, 100)
            && aftertaste == DrawnInteger(s2 + 2 * INCREMENT, i % 2 != 0, 0, 100)
  {
    hide PercentDraw, DrawnInteger;
    aroma := DrawPercent(rng, true);
    acidity := DrawPercent(rng, i % 3 != 0);
    sweetness := DrawPercent(rng, true);
    body := DrawPercent(rng, true);
    aftertaste := DrawPercent(rng, i % 2 != 0);
  }

  method GenerateReview(i: nat, roast: CloudRoast, createdMs: int, nowMs: int, digest: string -> string, rng: SeededRng)
    returns (review: Review)
    requires roast.id.Some?
    requires GenerationTimeFits(nowMs) && 0 <= createdMs <= nowMs && rng.state + 32 * INCREMENT < EXACT_LIMIT
    modifies rng`state
    ensures rng.state == old(rng.state) + ReviewDraws(i) * INCREMENT
    ensures ReviewFrom(review, i, roast, createdMs, nowMs, digest)
    ensures ReviewDrawn(review, i, createdMs, nowMs, digest, old(rng.state))
  {
    hide ToIsoString, Picked, Scaled, Nth, FourDigitYear, TokenFrom, PercentDraw, DrawnInteger, GenerationTimeFits,
      InRange, ReviewFrom;
    ghost var state := rng.state;
    SomeDrawn(state + INCREMENT);
    var name := rng.SynthReviewerName();
    var score := rng.RandomInteger(1, 5);
    var aroma, acidity, sweetness, body, aftertaste := DrawSliders(i, rng);
    var hash := None;
    if i % 2 == 0 {
      var digested := rng.SynthIpHash(digest);
      hash := Some(digested);
    }
    var createdAt, ms := ChildCreatedIso(createdMs, nowMs, rng);
    review := Review(None, roast.id.value, Some(name), Fin(score as real), aroma, acidity, sweetness, body, aftertaste,
                     if i % 2 == 0 then Some("Synthetic pourover") else None, None, hash, createdAt);
    DrawnReviewIsFrom(review, i, roast, createdMs, nowMs, digest, state);
    DrawsOfReview(i);
  }

  lemma DrawsOfReview(i: nat)
    ensures ReviewDraws(i) * INCREMENT
            == 6 * INCREMENT + (if i % 3 != 0 then INCREMENT else 0) + (if i % 2 != 0 then INCREMENT else 0)
               + if i % 2 == 0 then TOKEN_LENGTH * INCREMENT else 0
  {
  }

  lemma SomeDrawn(state: nat)
    ensures DrawnInteger(state, true, 1, 5) == Some(Fin(Picked(Nth(state, 1), 1, 5) as real))
  {
    hide Nth, Picked;
  }

  method GenerateReviews(roast: CloudRoast, createdMs: int, nowMs: int, digest: string -> string, rng: SeededRng)
    returns (reviews: seq<Review>)
    requires roast.id.Some?
    requires GenerationTimeFits(nowMs) && 0 <= createdMs <= nowMs && rng.state + 97 * INCREMENT < EXACT_LIMIT
    modifies rng`state
    ensures old(rng.state) <= rng.state <= old(rng.state) + 97 * INCREMENT
    ensures 1 <= |reviews| <= 3 && |reviews| == Picked(Nth(old(rng.state), 1), 1, 3)
    ensures forall i :: 0 <= i < |reviews| ==>
              && ReviewFrom(reviews[i], i, roast, createdMs, nowMs, digest)
              && ReviewDrawn(reviews[i], i, createdMs, nowMs, digest,
                             old(rng.state) + (1 + ReviewDrawsUpTo(i)) * INCREMENT)
  {
    hide ReviewFrom, ReviewDrawn, GenerationTimeFits, Nth, Picked;
    reviews := [];
    var count := rng.RandomInteger(1, 3);
    for i := 0 to count
      invariant |reviews| == i
      invariant rng.state == old(rng.state) + (1 + ReviewDrawsUpTo(i)) * INCREMENT
      invariant ReviewDrawsUpTo(i) <= 32 * i
      invariant forall k :: 0 <= k < i ==>
                && ReviewFrom(reviews[k], k, roast, createdMs, nowMs, digest)
                && ReviewDrawn(reviews[k], k, createdMs, nowMs, digest,
                               old(rng.state) + (1 + ReviewDrawsUpTo(k)) * INCREMENT)
    {
      var review := GenerateReview(i, roast, createdMs, nowMs, digest, rng);
      reviews := reviews + [review];
    }
  }

  // Roasts

  /** The draws that shape one roast and its children. */
  datatype Draft = Draft(roastedMs: int, createdMs: int, perturbation: Perturbation, token: string)

  function OriginOf(index: nat): string
    requires index < ROAST_COUNT
  {
    BEAN_ORIGINS[index / 2 % |BEAN_ORIGINS|]
  }

  function LevelOf(index: nat): string
    requires index < ROAST_COUNT
  {
    ROAST_LEVELS[index / 2 / |BEAN_ORIGINS|]
  }

  /** Roasted, created and generated in this order, within the retention-safe window. */
  predicate CausalOrder(d: Draft, nowMs: int) {
    && nowMs - RETENTION_SAFE_SECONDS * 1000 <= d.roastedMs <= d.createdMs <= nowMs
    && FourDigitYear(d.roastedMs / 1000) && FourDigitYear(d.createdMs / 1000)
  }

  ghost predicate RoastFrom(roast: CloudRoast, index: nat, source: ParsedSummary, nowMs: int, d: Draft)
    requires index < ROAST_COUNT
  {
    && CausalOrder(d, nowMs) && ValidPerturbation(d.perturbation)
    && roast.id.Some? && IsCloudRoastId(roast.id.value)
    && roast.idempotencyKey == SeededRandom.IdempotencyKey(index, d.token) && |d.token| == TOKEN_LENGTH
    && IsBase58(d.token)
    && IsValidSlug(roast.publicSlug) && roast.visibility in VISIBILITY_VALUES
    && roast.beanOrigin == Some(OriginOf(index)) && roast.roastLevel == Some(LevelOf(index))
    && RoastExtras(roast, index)
    && LifecycleFits(source, ToIsoString(d.roastedMs))
    && roast.summary == SummaryJson(CloseSummary(source, ToIsoString(d.roastedMs), d.perturbation))
    && SummaryFollows(roast.summary, source, ToIsoString(d.roastedMs), d.perturbation)
    && roast.contributedToLearning
    && roast.roastedAtUtc == Some(ToIsoString(d.roastedMs))
    && roast.createdAt == ToIsoString(d.createdMs) && roast.updatedAt == roast.createdAt
  }

  /** The columns that only follow the roast's position. */
  predicate RoastExtras(roast: CloudRoast, index: nat) {
    && roast.ownerId == None && roast.operatorNotes == None
    && roast.beanVarietal == (if index % 3 == 0 then Some("Synthetic blend") else None)
    && roast.beanWeightG == (if index % 2 == 0 then Some(Fin(250.0)) else None)
    && roast.profileName == (if index % 4 == 0 then Some("Synthetic preview profile") else None)
    && (if index % 3 == 0 then roast.operatorRating.Some? && InRange(roast.operatorRating.value, 1, 5)
        else roast.operatorRating == None)
  }

  method DrawTimes(source: ParsedSummary, nowMs: int, rng: SeededRng)
    returns (roastedAt: string, createdAt: string, p: Perturbation, roastedMs: int, createdMs: int)
    requires GenerationTimeFits(nowMs) && rng.state + 5 * INCREMENT < EXACT_LIMIT
    modifies rng`state
    ensures rng.state == old(rng.state) + 5 * INCREMENT
    ensures nowMs - RETENTION_SAFE_SECONDS * 1000 <= roastedMs <= createdMs <= nowMs
    ensures FourDigitYear(roastedMs / 1000) && FourDigitYear(createdMs / 1000) && ValidPerturbation(p)
    ensures roastedAt == ToIsoString(roastedMs) && createdAt == ToIsoString(createdMs)
    ensures roastedMs == nowMs - 1000 * Picked(Nth(old(rng.state), 1), 0, RETENTION_SAFE_SECONDS)
    ensures createdMs == Picked(Nth(old(rng.state), 2), roastedMs, nowMs)
    ensures p == DrawnPerturbation(old(rng.state) + 2 * INCREMENT)
  {
    hide ToIsoString, DateParse, ValidPerturbation, Picked, Nth, DrawnPerturbation, FourDigitYear, EpochMicroseconds,
      StrictIso;
    NextDraw(rng.state, 1);
    ghost var roasted, created;
    roastedAt, roasted := RelativeIso(nowMs, rng);
    ToIsoStringRoundTrip(roasted);
    roastedMs := DateParse(roastedAt).value;
    createdAt, created := ChildCreatedIso(roastedMs, nowMs, rng);
    ToIsoStringRoundTrip(created);
    createdMs := DateParse(createdAt).value;
    p := CreatePerturbation(rng);
  }

  /** Everything drawn for a roast is picked by a draw of its own, in order, counted from `state`. */
  predicate RoastDrawn(roast: CloudRoast, d: Draft, index: nat, nowMs: int, state: nat) {
    && roast.id == Some(IdText(VersionFour(BytesFrom(state, 16))))
    && d.roastedMs == nowMs - 1000 * Picked(Nth(state + 16 * INCREMENT, 1), 0, RETENTION_SAFE_SECONDS)
    && d.roastedMs <= nowMs && d.createdMs == Picked(Nth(state + 16 * INCREMENT, 2), d.roastedMs, nowMs)
    && d.perturbation == DrawnPerturbation(state + 18 * INCREMENT)
    && d.token == TokenFrom(state + 21 * INCREMENT, TOKEN_LENGTH)
    && roast.publicSlug == TokenFrom(state + 45 * INCREMENT, MIN_SLUG_LENGTH)
    && roast.visibility == VISIBILITY_VALUES[Picked(Nth(state + 62 * INCREMENT, 1), 0, 2)]
    && roast.operatorRating == DrawnInteger(state + 63 * INCREMENT, index % 3 == 0, 1, 5)
  }

  method GenerateRoast(index: nat, source: ParsedSummary, nowMs: int, rng: SeededRng)
    returns (roast: CloudRoast, p: Perturbation, createdMs: int, ghost d: Draft)
    requires index < ROAST_COUNT && rng.sequence == index
    requires GenerationTimeFits(nowMs) && LifecycleWindowFits(source, nowMs)
    requires rng.state + 64 * INCREMENT < EXACT_LIMIT
    modifies rng
    ensures rng.state == old(rng.state) + (if index % 3 == 0 then 64 else 63) * INCREMENT && rng.sequence == index + 1
    ensures RoastFrom(roast, index, source, nowMs, d) && d.perturbation == p && d.createdMs == createdMs
    ensures RoastDrawn(roast, d, index, nowMs, old(rng.state))
  {
    hide ToIsoString, IsCloudRoastId, IsValidSlug, IsBase58, TokenFrom, IdText, Nth, Picked, DrawnPerturbation,
      BytesFrom, LifecycleFits, CloseSummary, SummaryJson, SeededRandom.IdempotencyKey, ValidPerturbation, InRange,
      LifecycleWindowFits, SummaryFollows;
    var roastId := rng.SynthCloudRoastId();
    var roastedAt, createdAt, roastedMs;
    roastedAt, createdAt, p, roastedMs, createdMs := DrawTimes(source, nowMs, rng);
    ghost var before := rng.state;
    var key := rng.SynthIdempotencyKey();
    TokenIsBase58(before, TOKEN_LENGTH);
    var slug := rng.SynthSlug();
    var visibility := rng.RandomInteger(0, |VISIBILITY_VALUES| - 1);
    var rating := DrawRating(rng, index % 3 == 0);
    WindowFits(source, nowMs, roastedMs);
    ClosedFollows(source, roastedAt, p);
    d := Draft(roastedMs, createdMs, p, TokenFrom(before, TOKEN_LENGTH));
    roast := CloudRoast(
      Some(roastId), key, None, slug, VISIBILITY_VALUES[visibility],
      Some(BEAN_ORIGINS[index / 2 % |BEAN_ORIGINS|]),
      if index % 3 == 0 then Some("Synthetic blend") else None,
      if index % 2 == 0 then Some(Fin(250.0)) else None,
      if index % 4 == 0 then Some("Synthetic preview profile") else None,
      Some(ROAST_LEVELS[index / 2 / |BEAN_ORIGINS|]),
      SummaryJson(CloseSummary(source, roastedAt, p)),
      rating, None, true, Some(roastedAt), createdAt, createdAt);
  }

  method DrawRating(rng: SeededRng, present: bool) returns (v: Option<Num>)
    requires rng.state + INCREMENT < EXACT_LIMIT
    modifies rng`state
    ensures rng.state == old(rng.state) + if present then INCREMENT else 0
    ensures if present then v.Some? && InRange(v.value, 1, 5) else v == None
    ensures v == DrawnInteger(old(rng.state), present, 1, 5)
  {
    v := None;
    if present {
      var k := rng.RandomInteger(1, 5);
      v := Some(Fin(k as real));
    }
  }
}

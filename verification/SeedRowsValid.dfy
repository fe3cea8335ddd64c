/** Every generated row passes its row check. */
module SeedRowsValid {
  import opened Wrappers
  import opened Text
  import opened IsoTime
  import opened JsonTrees
  import opened RawIpText
  import opened SeededRandom
  import opened SeedTypes
  import opened SeedRules
  import opened SeedGenerate
  import opened SeedTextClean

  predicate LowerHexHash(s: string) {
    |s| == 64 && AllLowerHex(s)
  }

  /** What SHA-256 in lowercase hexadecimal returns. */
  ghost predicate HexDigest(digest: string -> string) {
    forall s :: LowerHexHash(digest(s))
  }

  lemma StampHasNoIp(ms: int, isIP: string -> bool)
    requires FourDigitYear(ms / 1000) && RespectsAddressShape(isIP)
    ensures IpFree(ToIsoString(ms), isIP)
  {
    hide *;
    ToIsoStringPrints(ms);
    StampParts(ms);
    TimestampHasNoIp(PartsOfSecond(ms / 1000, FixedWidth(ms % 1000, 3)), isIP);
    IpFreeIs(ToIsoString(ms), isIP);
  }

  lemma IpFreeIs(s: string, isIP: string -> bool)
    ensures IpFree(s, isIP) <==> !ContainsRawIp(s, isIP)
  {
  }

  lemma StampParts(ms: int)
    requires FourDigitYear(ms / 1000)
    ensures var p := PartsOfSecond(ms / 1000, FixedWidth(ms % 1000, 3)); Shaped(p) && p.zone == Utc
  {
    PartsOfSecondExact(ms / 1000, FixedWidth(ms % 1000, 3));
  }

  lemma MicroParts(seconds: int, within: nat)
    requires FourDigitYear(seconds)
    ensures var p := PartsOfSecond(seconds, FixedWidth(within, 6)); Shaped(p) && p.zone == Utc
  {
    PartsOfSecondExact(seconds, FixedWidth(within, 6));
  }

  lemma ShiftedHasNoIp(iso: string, offset: int, isIP: string -> bool)
    requires ShiftFits(iso, offset) && RespectsAddressShape(isIP)
    ensures IpFree(Shifted(iso, offset), isIP)
  {
    hide *;
    ShiftedInstant(iso, offset);
    var v := EpochMicroseconds(iso).value + offset;
    IsoFromEpochPrints(v);
    var seconds := TruncDiv(v, 1_000_000);
    MicroParts(seconds, v - 1_000_000 * seconds);
    TimestampHasNoIp(PartsOfSecond(seconds, FixedWidth(v - 1_000_000 * seconds, 6)), isIP);
    IpFreeIs(Shifted(iso, offset), isIP);
  }

  lemma ShiftedInstant(iso: string, offset: int)
    requires ShiftFits(iso, offset)
    ensures EpochMicroseconds(iso).Some?
    ensures var v := EpochMicroseconds(iso).value + offset;
            v >= 0 && FourDigitYear(TruncDiv(v, 1_000_000)) && Shifted(iso, offset) == IsoFromEpochMicroseconds(v)
  {
    hide EpochMicroseconds, IsoFromEpochMicroseconds, TruncDiv, FourDigitYear;
    FourDigitInstantPrints(EpochMicroseconds(iso).value + offset);
  }

  lemma ClosedSummaryClean(source: ParsedSummary, roastedAt: string, p: Perturbation, isIP: string -> bool)
    requires LifecycleFits(source, roastedAt) && RespectsAddressShape(isIP)
    ensures CleanVariant(SummaryJson(CloseSummary(source, roastedAt, p)), isIP)
  {
    hide CleanVariant, SummaryJson, ShiftFits, IpFree, Shifted, EpochMicroseconds, RespectsAddressShape;
    var offset := LifecycleOffset(source, roastedAt);
    ShiftedHasNoIp(source.startedAtUtc, offset, isIP);
    ShiftedHasNoIp(source.firstCrackAtUtc, offset, isIP);
    ShiftedHasNoIp(source.beansAddedAtUtc, offset, isIP);
    ShiftedHasNoIp(source.beansDroppedAtUtc, offset, isIP);
    SummaryClean(CloseSummary(source, roastedAt, p), isIP);
  }

  // ----- Plain generated texts

  predicate PlainChars(s: string) {
    forall i :: 0 <= i < |s| ==> s[i] != '.' && s[i] != ':'
  }

  lemma PlainCharsHaveNoIp(s: string, isIP: string -> bool)
    requires PlainChars(s) && RespectsAddressShape(isIP)
    ensures !ContainsRawIp(s, isIP)
  {
    PlainTextHasNoIp(s, isIP);
  }

  lemma PlainBase58(s: string)
    requires IsBase58(s)
    ensures PlainChars(s)
  {
    Base58HasNoPunctuation();
  }

  lemma PlainConcat(a: string, b: string)
    requires PlainChars(a) && PlainChars(b)
    ensures PlainChars(a + b)
  {
  }

  lemma PlainDigits(s: string)
    requires AllDigits(s)
    ensures PlainChars(s)
  {
    assert forall i :: 0 <= i < |s| ==> IsDigit(s[i]);
  }

  lemma PlainKey(n: nat, token: string)
    requires IsBase58(token)
    ensures PlainChars(SeededRandom.IdempotencyKey(n, token))
  {
    hide Decimal, IsBase58, AllDigits;
    PlainBase58(token);
    PlainDigits(Decimal(n));
    PlainConcat(Decimal(n), ['-']);
    PlainConcat(Decimal(n) + ['-'], token);
    PlainPrefix();
    PlainConcat("synthetic-idempotency-", Numbered(n, token));
  }

  lemma PlainPrefix()
    ensures PlainChars("synthetic-idempotency-")
  {
  }

  lemma PlainId(id: string)
    requires IsCloudRoastId(id)
    ensures PlainChars(id)
  {
    forall i | 0 <= i < 36 ensures id[i] != '.' && id[i] != ':' {
      if i < 8 { assert id[i] == id[0..8][i]; }
      else if 9 <= i < 13 { assert id[i] == id[9..13][i - 9]; }
      else if 14 <= i < 18 { assert id[i] == id[14..18][i - 14]; }
      else if 19 <= i < 23 { assert id[i] == id[19..23][i - 19]; }
      else if 24 <= i { assert id[i] == id[24..36][i - 24]; }
    }
  }

  lemma PlainOrigins(i: nat)
    requires i < |BEAN_ORIGINS|
    ensures PlainChars(BEAN_ORIGINS[i])
  {
    assert PlainChars("Ethiopia Yirgacheffe") && PlainChars("Colombia Huila");
    assert PlainChars("Brazil Cerrado") && PlainChars("Guatemala Antigua");
  }

  lemma PlainLevels(i: nat)
    requires i < |ROAST_LEVELS|
    ensures PlainChars(ROAST_LEVELS[i])
  {
    assert PlainChars("light") && PlainChars("medium") && PlainChars("dark");
  }

  lemma PlainWords()
    ensures forall v :: v in VISIBILITY_VALUES ==> PlainChars(v)
    ensures PlainChars("Synthetic blend") && PlainChars("Synthetic preview profile")
  {
    assert PlainChars("private") && PlainChars("unlisted") && PlainChars("public");
  }

  // ----- Row by row

  /** A text column is plain text or a timestamp without an address. */
  ghost predicate SafeText(cell: Json, isIP: string -> bool) {
    cell.JStr? ==> PlainChars(cell.s) || IpFree(cell.s, isIP)
  }

  lemma SafeCells(table: SeedTable, cells: Column -> Json, isIP: string -> bool)
    requires RespectsAddressShape(isIP)
    requires forall c :: c in Columns(table) ==> SafeText(cells(c), isIP)
    ensures NoRawIpCells(table, cells, isIP)
  {
    hide ContainsRawIp, RespectsAddressShape, Columns, PlainChars;
    forall c | c in Columns(table) ensures !RawIpCell(cells(c), isIP) {
      if cells(c).JStr? && PlainChars(cells(c).s) { PlainCharsHaveNoIp(cells(c).s, isIP); }
    }
  }

  lemma RoastCellsSafe(roast: CloudRoast, index: nat, source: ParsedSummary, nowMs: int, d: Draft, isIP: string -> bool)
    requires index < ROAST_COUNT && RoastFrom(roast, index, source, nowMs, d) && RespectsAddressShape(isIP)
    ensures forall c :: c in Columns(CloudRoasts) ==> SafeText(RoastCell(roast, c), isIP)
  {
    hide PlainChars, IpFree, ToIsoString, SummaryJson, CloseSummary, SummaryFollows, LifecycleFits, IsCloudRoastId,
      IsValidSlug, SeededRandom.IdempotencyKey, ValidPerturbation, Columns, RespectsAddressShape, InRange;
    PlainId(roast.id.value);
    PlainKey(index, d.token);
    PlainSlug(roast.publicSlug);
    PlainOrigins(index / 2 % |BEAN_ORIGINS|);
    PlainLevels(index / 2 / |BEAN_ORIGINS|);
    PlainWords();
    StampHasNoIp(d.roastedMs, isIP);
    StampHasNoIp(d.createdMs, isIP);
    SummaryIsObject(CloseSummary(source, ToIsoString(d.roastedMs), d.perturbation));
  }

  lemma SummaryIsObject(c: ClosedSummary)
    ensures SummaryJson(c).JObj?
  {
  }

  lemma PlainSlug(slug: string)
    requires IsValidSlug(slug)
    ensures PlainChars(slug)
  {
    PlainBase58(slug);
  }

  lemma RoastRowOk(roast: CloudRoast, index: nat, source: ParsedSummary, nowMs: int, d: Draft, isIP: string -> bool)
    requires index < ROAST_COUNT && RoastFrom(roast, index, source, nowMs, d) && RespectsAddressShape(isIP)
    ensures RoastOk(roast, isIP)
  {
    hide CleanVariant, CloseSummary, SummaryFollows, LifecycleFits, IsCloudRoastId, IsValidSlug, Columns, RoastCell,
      NoRawIpCells, InRange, SafeText, ToIsoString, SeededRandom.IdempotencyKey, RespectsAddressShape,
      ValidPerturbation;
    RoastCellsSafe(roast, index, source, nowMs, d, isIP);
    SafeCells(CloudRoasts, c => RoastCell(roast, c), isIP);
    ClosedSummaryClean(source, ToIsoString(d.roastedMs), d.perturbation, isIP);
  }

  lemma ColumnNamesCelsius(c: Column)
    requires c in Columns(RoastTelemetry)
    ensures !IsFahrenheitKey(Name(c))
  {
    hide CleanKey, IsFahrenheitKey;
    ReadingKeys();
    TelemetryColumnKeys();
    CleanKeyCelsius(Name(c));
  }

  lemma CleanKeyCelsius(key: string)
    requires CleanKey(key) || key == "raw"
    ensures !IsFahrenheitKey(key)
  {
    if CleanKey(key) {
      CelsiusNameIsClean(key);
    } else {
      var lower := ToLower(key);
      assert lower == "raw";
      assert lower[1..] == "aw" && lower[2..] == "w";
    }
  }

  lemma TelemetryColumnKeys()
    ensures CleanKey("roast_id") && CleanKey("elapsed_s") && CleanKey("ror_c_per_min")
  {
    hide CleanKey;
    KeyWithout("roast_id", 'h');
    KeyWithout("elapsed_s", 'h');
    KeyWithout("ror_c_per_min", 'h');
  }

  lemma TelemetryRowOk(sample: ParsedTelemetry, roastId: string, p: Perturbation, isIP: string -> bool)
    requires ValidTelemetryRow(sample) && PlainChars(roastId) && RespectsAddressShape(isIP)
    ensures TelemetryOk(PerturbedRow(sample, roastId, p), isIP)
  {
    hide CleanVariant, RawJson, IsFahrenheitKey, NoRawIpCells, PlainChars, ContainsRawIp, RespectsAddressShape;
    var row := PerturbedRow(sample, roastId, p);
    forall c | c in Columns(RoastTelemetry) ensures !IsFahrenheitKey(Name(c)) && SafeText(TelemetryCell(row, c), isIP) {
      ColumnNamesCelsius(c);
      assert row.raw.JObj? by { RawIsObject(sample, roastId, p); }
    }
    SafeCells(RoastTelemetry, c => TelemetryCell(row, c), isIP);
    PerturbedReadings(sample, roastId, p, isIP);
  }

  lemma RawIsObject(sample: ParsedTelemetry, roastId: string, p: Perturbation)
    ensures PerturbedRow(sample, roastId, p).raw.JObj?
  {
  }

  lemma PerturbedReadings(sample: ParsedTelemetry, roastId: string, p: Perturbation, isIP: string -> bool)
    requires ValidTelemetryRow(sample) && RespectsAddressShape(isIP)
    ensures ReadingsOk(PerturbedRow(sample, roastId, p)) && CleanVariant(PerturbedRow(sample, roastId, p).raw, isIP)
  {
    hide CleanVariant, RespectsAddressShape;
    var bean := sample.beanTempC + p.temperatureOffsetC;
    var env := sample.envTempC + p.temperatureOffsetC;
    RawClean(sample.monotonicSeconds, bean, env, ClampInt(sample.heatLevelPercent + p.controlOffset, 0, 100),
             ClampInt(sample.fanLevelPercent - p.controlOffset, 0, 100), isIP);
  }

  lemma ArtifactRowOk(a: Artifact, i: nat, roast: CloudRoast, createdMs: int, nowMs: int, isIP: string -> bool)
    requires ArtifactFrom(a, i, roast, createdMs, nowMs) && RespectsAddressShape(isIP)
    requires PlainChars(roast.id.value) && PlainChars(roast.idempotencyKey)
    ensures ArtifactOk(a, isIP)
  {
    hide PlainChars, ToIsoString, NoRawIpCells, IpFree, RespectsAddressShape, InRange;
    var ms :| createdMs <= ms <= nowMs && FourDigitYear(ms / 1000) && a.createdAt == ToIsoString(ms);
    StampHasNoIp(ms, isIP);
    PlainKinds(i);
    PlainConcat(roast.idempotencyKey, "/");
    PlainConcat(roast.idempotencyKey + "/", ARTIFACT_KINDS[i]);
    SafeCells(RoastArtifacts, c => ArtifactCell(a, c), isIP);
  }

  lemma PlainKinds(i: nat)
    requires i < |ARTIFACT_KINDS|
    ensures PlainChars(ARTIFACT_KINDS[i]) && PlainChars("/")
  {
    assert PlainChars("jsonl") && PlainChars("csv") && PlainChars("summary");
  }

  lemma PlainReviewWords()
    ensures PlainChars("Synthetic pourover")
    ensures forall name :: name in SYNTHETIC_NAME_POOL ==> PlainChars(name)
  {
    assert PlainChars("Test Taster Alpha") && PlainChars("Mock Reviewer Beta") && PlainChars("Sample Sipper Gamma");
  }

  lemma HashShape(s: string)
    requires LowerHexHash(s)
    ensures PlainChars(s) && IsIpHash(s)
  {
    assert forall i :: 0 <= i < 64 ==> IsLowerHex(s[i]);
  }

  lemma ReviewCellsSafe(r: Review, i: nat, roast: CloudRoast, createdMs: int, nowMs: int, digest: string -> string,
                        isIP: string -> bool)
    requires ReviewFrom(r, i, roast, createdMs, nowMs, digest) && HexDigest(digest) && RespectsAddressShape(isIP)
    requires PlainChars(roast.id.value)
    ensures forall c :: c in Columns(TastingReviews) ==> SafeText(ReviewCell(r, c), isIP)
  {
    hide PlainChars, ToIsoString, IpFree, RespectsAddressShape, InRange, LowerHexHash, IsIpHash, Columns;
    var ms :| createdMs <= ms <= nowMs && FourDigitYear(ms / 1000) && r.createdAt == ToIsoString(ms);
    StampHasNoIp(ms, isIP);
    PlainReviewWords();
    if r.submittedIpHash.Some? {
      HashShape(r.submittedIpHash.value);
    }
  }

  lemma ReviewRowOk(r: Review, i: nat, roast: CloudRoast, createdMs: int, nowMs: int, digest: string -> string,
                    isIP: string -> bool)
    requires ReviewFrom(r, i, roast, createdMs, nowMs, digest) && HexDigest(digest) && RespectsAddressShape(isIP)
    requires PlainChars(roast.id.value)
    requires nowMs - RETENTION_SAFE_SECONDS * 1000 <= createdMs
    ensures ReviewOk(r, nowMs, isIP)
  {
    hide PlainChars, ToIsoString, NoRawIpCells, RespectsAddressShape, InRange, LowerHexHash, IsIpHash, DateParse,
      ReviewCell, SafeText;
    var ms :| createdMs <= ms <= nowMs && FourDigitYear(ms / 1000) && r.createdAt == ToIsoString(ms);
    ToIsoStringRoundTrip(ms);
    if r.submittedIpHash.Some? {
      HashShape(r.submittedIpHash.value);
    }
    ReviewCellsSafe(r, i, roast, createdMs, nowMs, digest, isIP);
    SafeCells(TastingReviews, c => ReviewCell(r, c), isIP);
  }
}

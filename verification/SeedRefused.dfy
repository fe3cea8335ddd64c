/** Valid outputs that the loader refuses: one for each clause of what it accepts. */
module SeedRefused {
  import opened Wrappers
  import opened Sequences
  import opened Text
  import opened IsoTime
  import opened JsonTrees
  import opened RawIpText
  import opened SeededRandom
  import opened SeedTypes
  import opened SeedRules
  import opened SeedRelations
  import opened SeedDispatch
  import opened SeedArtifact
  import opened SeedGenerate
  import opened SeedFanOut
  import opened SeedTextClean
  import opened SeedRowsValid
  import opened SeedOutputValid
  import opened SeedPipeline

  // ----- One roast with its summary, and at most one review

  const SPECIMEN_MS := 1_700_000_000_000
  const SPECIMEN_LEVEL := "light"

  lemma SpecimenYear()
    ensures FourDigitYear(SPECIMEN_MS / 1000)
  {
    assert YEAR_0 < 0 && YEAR_10000 > 200_000_000_000;
  }

  function SpecimenStamp(): string {
    SpecimenYear();
    ToIsoString(SPECIMEN_MS)
  }

  function SpecimenClosed(): ClosedSummary {
    ClosedSummary(15.0, 90.0, 600.0, SpecimenStamp(), SpecimenStamp(), SpecimenStamp(), SpecimenStamp(),
                  Metrics(10.0, 12.0, 8.0, 9.0, 600.0), 0.9, 0.5)
  }

  function SpecimenRoast(id: Option<string>, origin: string): CloudRoast {
    CloudRoast(id, "key", None, Repeat('1', MIN_SLUG_LENGTH), "private", Some(origin), None, None, None,
               Some(SPECIMEN_LEVEL), SummaryJson(SpecimenClosed()), None, None, true, None,
               SpecimenStamp(), SpecimenStamp())
  }

  function SpecimenReview(id: string, hash: string, createdAt: string): Review {
    Review(None, id, None, Fin(4.0), None, None, None, None, None, None, None, Some(hash), createdAt)
  }

  function Specimen(id: Option<string>, origin: string, reviews: seq<Review>): SeedOutput {
    var roast := SpecimenRoast(id, origin);
    SeedOutput([roast], [], [], reviews, [SummaryRow([roast], reviews, origin, SPECIMEN_LEVEL, SpecimenStamp())])
  }

  function SpecimenId(): string {
    IdText(VersionFour(seq(16, _ => 0)))
  }

  lemma SpecimenIdShape()
    ensures IsCloudRoastId(SpecimenId()) && PlainChars(SpecimenId())
  {
    hide IsCloudRoastId, PlainChars, IdText;
    IdTextShape(VersionFour(seq(16, _ => 0)));
    PlainId(SpecimenId());
  }

  // ----- Its rows are valid

  lemma StampSafe(isIP: string -> bool)
    requires RespectsAddressShape(isIP)
    ensures IpFree(SpecimenStamp(), isIP)
  {
    hide IpFree, ToIsoString, RespectsAddressShape;
    SpecimenYear();
    StampHasNoIp(SPECIMEN_MS, isIP);
  }

  lemma StampReads()
    ensures DateParse(SpecimenStamp()) == Some(SPECIMEN_MS)
  {
    hide DateParse, ToIsoString;
    SpecimenYear();
    ToIsoStringRoundTrip(SPECIMEN_MS);
  }

  lemma SlugIsValid()
    ensures IsValidSlug(Repeat('1', MIN_SLUG_LENGTH)) && PlainChars(Repeat('1', MIN_SLUG_LENGTH))
  {
    assert BASE58[0] == '1';
  }

  lemma SpecimenWords()
    ensures PlainChars("key") && PlainChars("private") && PlainChars(SPECIMEN_LEVEL) && "private" in VISIBILITY_VALUES
  {
    assert VISIBILITY_VALUES[0] == "private";
  }

  predicate IdPlain(id: Option<string>) {
    id.Some? ==> IsCloudRoastId(id.value) && PlainChars(id.value)
  }

  lemma SpecimenCells(id: Option<string>, origin: string, isIP: string -> bool)
    requires PlainChars(origin) && IdPlain(id) && RespectsAddressShape(isIP)
    ensures NoRawIpCells(CloudRoasts, c => RoastCell(SpecimenRoast(id, origin), c), isIP)
  {
    hide PlainChars, IpFree, SpecimenStamp, SummaryJson, IsCloudRoastId, RespectsAddressShape, Columns, NoRawIpCells;
    var roast := SpecimenRoast(id, origin);
    StampSafe(isIP);
    SlugIsValid();
    SpecimenWords();
    SummaryIsObject(SpecimenClosed());
    forall c | c in Columns(CloudRoasts) ensures SafeText(RoastCell(roast, c), isIP) {
    }
    SafeCells(CloudRoasts, c => RoastCell(roast, c), isIP);
  }

  lemma SpecimenRoastOk(id: Option<string>, origin: string, isIP: string -> bool)
    requires PlainChars(origin) && IdPlain(id) && RespectsAddressShape(isIP)
    ensures RoastOk(SpecimenRoast(id, origin), isIP)
  {
    hide PlainChars, IpFree, SpecimenStamp, SummaryJson, IsCloudRoastId, RespectsAddressShape, NoRawIpCells, RoastCell,
      IsValidSlug, CleanVariant;
    SpecimenCells(id, origin, isIP);
    StampSafe(isIP);
    SlugIsValid();
    SpecimenWords();
    SummaryIsObject(SpecimenClosed());
    SummaryClean(SpecimenClosed(), isIP);
  }

  lemma SpecimenSummaryOk(id: Option<string>, origin: string, reviews: seq<Review>, isIP: string -> bool)
    requires PlainChars(origin) && RespectsAddressShape(isIP)
    ensures SummaryOk(Specimen(id, origin, reviews).referenceRoastSummaries[0], isIP)
  {
    hide PlainChars, IpFree, SpecimenStamp, SpecimenRoast, RespectsAddressShape, NoRawIpCells, ContributingRoasts,
      ReviewsOf, SeedRelations.RoastIds, Mean, Scores, DevelopmentPercents, FirstCrackTimes, TotalTimes, Columns;
    var s := Specimen(id, origin, reviews).referenceRoastSummaries[0];
    StampSafe(isIP);
    SpecimenWords();
    forall c | c in Columns(ReferenceRoastSummaries) ensures SafeText(SummaryCell(s, c), isIP) {
    }
    SafeCells(ReferenceRoastSummaries, c => SummaryCell(s, c), isIP);
  }

  lemma SpecimenReviewOk(id: string, hash: string, createdAt: string, now: int, isIP: string -> bool)
    requires PlainChars(id) && PlainChars(hash) && IpFree(createdAt, isIP) && RespectsAddressShape(isIP)
    requires IsIpHash(hash) && DateParse(createdAt) == Some(now)
    ensures ReviewOk(SpecimenReview(id, hash, createdAt), now, isIP)
  {
    hide PlainChars, IpFree, RespectsAddressShape, NoRawIpCells, Columns, DateParse, IsIpHash;
    var r := SpecimenReview(id, hash, createdAt);
    forall c | c in Columns(TastingReviews) ensures SafeText(ReviewCell(r, c), isIP) {
    }
    SafeCells(TastingReviews, c => ReviewCell(r, c), isIP);
  }

  // ----- Its relations hold

  lemma OneTracked<K>(key: Option<K>)
    ensures DistinctPresent([key])
  {
    assert Tracked([key], 0) == [];
    assert |Tracked([key], 1)| <= 1;
  }

  lemma NoneTracked<K>(keys: seq<Option<K>>)
    requires keys == []
    ensures DistinctPresent(keys)
  {
  }

  lemma SpecimenIdentities(id: Option<string>, origin: string, reviews: seq<Review>)
    requires |reviews| <= 1
    ensures IdentitiesUnique(Specimen(id, origin, reviews))
  {
    hide DistinctPresent, SummaryRow, SpecimenStamp, SummaryJson;
    var output := Specimen(id, origin, reviews);
    var roast, summary := output.cloudRoasts[0], output.referenceRoastSummaries[0];
    OneTracked(roast.id);
    OneTracked(Some(roast.idempotencyKey));
    OneTracked(Some(roast.publicSlug));
    OneTracked(summary.id);
    OneTracked(Some(SummaryGroup(summary)));
    assert RoastIdKeys(output.cloudRoasts) == [roast.id];
    assert IdempotencyKeys(output.cloudRoasts) == [Some(roast.idempotencyKey)];
    assert SlugKeys(output.cloudRoasts) == [Some(roast.publicSlug)];
    assert SummaryIdKeys(output.referenceRoastSummaries) == [summary.id];
    assert SummaryGroupKeys(output.referenceRoastSummaries) == [Some(SummaryGroup(summary))];
    NoneTracked(ArtifactIdKeys(output.roastArtifacts));
    ReviewIdsUnique(reviews);
  }

  lemma ReviewIdsUnique(reviews: seq<Review>)
    requires |reviews| <= 1
    ensures DistinctPresent(ReviewIdKeys(reviews))
  {
    hide DistinctPresent;
    if reviews == [] {
      NoneTracked(ReviewIdKeys(reviews));
    } else {
      OneTracked(reviews[0].id);
      assert ReviewIdKeys(reviews) == [reviews[0].id];
    }
  }

  lemma SpecimenCovered(id: Option<string>, origin: string, reviews: seq<Review>)
    ensures Covered(Specimen(id, origin, reviews).cloudRoasts, Specimen(id, origin, reviews).referenceRoastSummaries)
  {
    hide SpecimenStamp, SummaryJson, Mean, Scores, DevelopmentPercents, FirstCrackTimes, TotalTimes, ContributingRoasts,
      ReviewsOf, SeedRelations.RoastIds, SpecimenClosed;
    var output := Specimen(id, origin, reviews);
    var roast, summary := output.cloudRoasts[0], output.referenceRoastSummaries[0];
    assert RoastGroup(roast) == SummaryGroup(summary) && roast.contributedToLearning;
    forall g ensures Contributes(output.cloudRoasts, g) <==> Summarised(output.referenceRoastSummaries, g) {
      if g == RoastGroup(roast) {
        assert RoastGroup(output.cloudRoasts[0]) == g && SummaryGroup(output.referenceRoastSummaries[0]) == g;
      }
    }
  }

  lemma SpecimenFinite(id: Option<string>, origin: string)
    ensures var summary := SpecimenRoast(id, origin).summary;
            && NumberProperty(summary, "development_time_percent").Fin?
            && FirstCrackSeconds(summary).Fin?
            && NumberProperty(summary, "total_roast_seconds").Fin?
  {
    hide SummaryJson, SpecimenStamp, DateParse;
    ClosedProperties(SpecimenClosed());
    StampReads();
  }

  lemma SpecimenAggregates(id: Option<string>, origin: string, reviews: seq<Review>)
    requires forall r :: r in reviews ==> r.score.Fin?
    ensures AggregatesMatch(Specimen(id, origin, reviews), Specimen(id, origin, reviews).referenceRoastSummaries[0])
  {
    hide SpecimenRoast, SpecimenStamp, Mean, StrictlyEqual, ApproximatelyEqual, NumberProperty, FirstCrackSeconds,
      SeedRelations.RoastIds;
    var roast := SpecimenRoast(id, origin);
    var members := ContributingRoasts([roast], origin, SPECIMEN_LEVEL);
    var rated := ReviewsOf(reviews, SeedRelations.RoastIds(members));
    SpecimenFinite(id, origin);
    forall i | 0 <= i < |members| ensures members[i] == roast {
      assert members[i] in members;
    }
    forall i | 0 <= i < |rated| ensures rated[i].score.Fin? {
      assert rated[i] in rated;
    }
    MeanSelfEqual(Scores(rated));
    MeanSelfEqual(DevelopmentPercents(members));
    MeanSelfEqual(FirstCrackTimes(members));
    MeanSelfEqual(TotalTimes(members));
  }

  /** What the reviews of a specimen must be for it to be valid. */
  ghost predicate SpecimenReviews(id: Option<string>, reviews: seq<Review>, now: int, isIP: string -> bool) {
    && |reviews| <= 1
    && forall r :: r in reviews ==> r.score.Fin? && Some(r.roastId) == id && ReviewOk(r, now, isIP)
  }

  lemma SpecimenValid(id: Option<string>, origin: string, reviews: seq<Review>, now: int, isIP: string -> bool)
    requires PlainChars(origin) && IdPlain(id) && RespectsAddressShape(isIP)
    requires SpecimenReviews(id, reviews, now, isIP)
    ensures ValidOutput(Specimen(id, origin, reviews), now, isIP)
  {
    hide PlainChars, IdPlain, RespectsAddressShape, RoastOk, ReviewOk, SummaryOk, IdentitiesUnique, Covered,
      AggregatesMatch, SpecimenStamp, SpecimenClosed, SummaryRow, SummaryJson;
    SpecimenRoastOk(id, origin, isIP);
    SpecimenSummaryOk(id, origin, reviews, isIP);
    SpecimenIdentities(id, origin, reviews);
    SpecimenCovered(id, origin, reviews);
    SpecimenAggregates(id, origin, reviews);
    var output := Specimen(id, origin, reviews);
    assert id.Some? ==>
           output.cloudRoasts[0] in output.cloudRoasts && id.value in SeedRelations.RoastIds(output.cloudRoasts);
  }

  // ----- The refused outputs

  ghost predicate Refused(output: SeedOutput, target: string, now: int) {
    !ArtifactAccepted(ArtifactJson(target, DispatchesOf(output)), target, now)
  }

  /** No rows at all: valid, and refused. */
  lemma EmptyOutputRefused(validatedAt: int, isIP: string -> bool, target: string, now: int)
    requires target in ALLOWED_TARGETS
    ensures var output := SeedOutput([], [], [], [], []);
            ValidOutput(output, validatedAt, isIP) && Refused(output, target, now)
  {
    hide ArtifactAccepted, ArtifactJson;
    var output := SeedOutput([], [], [], [], []);
    NoneTracked(RoastIdKeys([]));
    NoneTracked(ArtifactIdKeys([]));
    NoneTracked(ReviewIdKeys([]));
    NoneTracked(SummaryIdKeys([]));
    NoneTracked(SummaryGroupKeys([]));
    DispatchAcceptedExactly(output, validatedAt, isIP, target, now);
  }

  /** A roast without an id is valid together with its summary; the loader demands ids. */
  lemma MissingIdRefused(validatedAt: int, isIP: string -> bool, target: string, now: int)
    requires target in ALLOWED_TARGETS && RespectsAddressShape(isIP)
    ensures var output := Specimen(None, "Brazil", []);
            ValidOutput(output, validatedAt, isIP) && Refused(output, target, now)
  {
    hide ArtifactAccepted, ArtifactJson, ValidOutput, RespectsAddressShape, SpecimenStamp, SpecimenClosed, SummaryRow,
      SummaryJson, HashFresh, GroupsNamed;
    assert PlainChars("Brazil");
    SpecimenValid(None, "Brazil", [], validatedAt, isIP);
    DispatchAcceptedExactly(Specimen(None, "Brazil", []), validatedAt, isIP, target, now);
    assert SpecimenRoast(None, "Brazil") in Specimen(None, "Brazil", []).cloudRoasts;
  }

  /** A group with an empty name is a group to the check; the loader demands text. */
  lemma BlankGroupRefused(validatedAt: int, isIP: string -> bool, target: string, now: int)
    requires target in ALLOWED_TARGETS && RespectsAddressShape(isIP)
    ensures var output := Specimen(Some(SpecimenId()), "", []);
            ValidOutput(output, validatedAt, isIP) && Refused(output, target, now)
  {
    hide ArtifactAccepted, ArtifactJson, ValidOutput, RespectsAddressShape, SpecimenStamp, SpecimenClosed, SummaryJson,
      HashFresh, IdsGiven, SpecimenId, IsCloudRoastId;
    var output := Specimen(Some(SpecimenId()), "", []);
    SpecimenIdShape();
    assert PlainChars("");
    SpecimenValid(Some(SpecimenId()), "", [], validatedAt, isIP);
    DispatchAcceptedExactly(output, validatedAt, isIP, target, now);
    assert output.referenceRoastSummaries[0].beanOrigin == "";
  }

  lemma ReviewedValid(review: Review, now: int, isIP: string -> bool)
    requires review.score == Fin(4.0) && review.roastId == SpecimenId() && ReviewOk(review, now, isIP)
    requires RespectsAddressShape(isIP)
    ensures ValidOutput(Specimen(Some(SpecimenId()), "Brazil", [review]), now, isIP)
  {
    hide ValidOutput, ReviewOk, RespectsAddressShape, Specimen, SpecimenId, IsCloudRoastId;
    SpecimenIdShape();
    assert PlainChars("Brazil");
    SpecimenValid(Some(SpecimenId()), "Brazil", [review], now, isIP);
  }

  lemma ReviewedRefused(review: Review, validatedAt: int, isIP: string -> bool, target: string, now: int)
    requires ValidOutput(Specimen(Some(SpecimenId()), "Brazil", [review]), validatedAt, isIP)
             && target in ALLOWED_TARGETS
    requires !HashFresh(review, now)
    ensures Refused(Specimen(Some(SpecimenId()), "Brazil", [review]), target, now)
  {
    hide ArtifactAccepted, ArtifactJson, ValidOutput, SpecimenRoast, SummaryRow, HashFresh, IdsGiven, GroupsNamed,
      SpecimenId;
    DispatchAcceptedExactly(Specimen(Some(SpecimenId()), "Brazil", [review]), validatedAt, isIP, target, now);
    assert review in [review];
  }

  /** The check takes hexadecimal digits of either case; the loader takes lower case. */
  lemma UppercaseHashRefused(isIP: string -> bool, target: string, now: int)
    requires target in ALLOWED_TARGETS && RespectsAddressShape(isIP)
    ensures var review := SpecimenReview(SpecimenId(), Repeat('A', 64), SpecimenStamp());
            var output := Specimen(Some(SpecimenId()), "Brazil", [review]);
            ValidOutput(output, SPECIMEN_MS, isIP) && Refused(output, target, now)
  {
    hide ValidOutput, Refused, RespectsAddressShape, SpecimenStamp, SpecimenId, IsCloudRoastId, IpFree, ReviewOk,
      Specimen, StrictIso, EpochMicroseconds, DateParse;
    var hash := Repeat('A', 64);
    var review := SpecimenReview(SpecimenId(), hash, SpecimenStamp());
    SpecimenIdShape();
    StampSafe(isIP);
    StampReads();
    assert PlainChars(hash) && IsIpHash(hash);
    SpecimenReviewOk(SpecimenId(), hash, SpecimenStamp(), SPECIMEN_MS, isIP);
    ReviewedValid(review, SPECIMEN_MS, isIP);
    assert hash[0] == 'A';
    ReviewedRefused(review, SPECIMEN_MS, isIP, target, now);
  }

  /** 30 February: Date.parse runs it over into March, the loader reads no such date. */
  const LATE_FEBRUARY := IsoParts(2026, 2, 30, 0, 0, 0, "", Utc)

  lemma LateFebruaryReads()
    ensures Shaped(LATE_FEBRUARY) && DateParse(Print(LATE_FEBRUARY)) == Some(LateFebruaryMs())
    ensures !StrictIso(Print(LATE_FEBRUARY))
  {
    hide Print;
    ParsePrint(LATE_FEBRUARY);
    NoFraction();
  }

  lemma NoFraction()
    ensures FractionUnits("", 3) == 0
  {
    assert PadEnd("", 3, '0')[..3] == Repeat('0', 3);
    FixedWidthZero(3);
    NumberOfFixedWidth(0, 3);
  }

  function LateFebruaryMs(): int {
    1000 * SecondsOf(LATE_FEBRUARY)
  }

  /** A timestamp that only Date.parse reads keeps its hash within the check's retention; the loader refuses it. */
  lemma LooseTimestampRefused(isIP: string -> bool, target: string, now: int)
    requires target in ALLOWED_TARGETS && RespectsAddressShape(isIP)
    ensures var review := SpecimenReview(SpecimenId(), Repeat('a', 64), Print(LATE_FEBRUARY));
            var output := Specimen(Some(SpecimenId()), "Brazil", [review]);
            ValidOutput(output, LateFebruaryMs(), isIP) && Refused(output, target, now)
  {
    hide ValidOutput, Refused, RespectsAddressShape, Print, SpecimenId, IsCloudRoastId, ReviewOk, Specimen,
      StrictIso, EpochMicroseconds, DateParse, LateFebruaryMs;
    var hash := Repeat('a', 64);
    var review := SpecimenReview(SpecimenId(), hash, Print(LATE_FEBRUARY));
    SpecimenIdShape();
    LateFebruaryReads();
    TimestampHasNoIp(LATE_FEBRUARY, isIP);
    IpFreeIs(Print(LATE_FEBRUARY), isIP);
    assert PlainChars(hash) && IsIpHash(hash);
    SpecimenReviewOk(SpecimenId(), hash, Print(LATE_FEBRUARY), LateFebruaryMs(), isIP);
    ReviewedValid(review, LateFebruaryMs(), isIP);
    ReviewedRefused(review, LateFebruaryMs(), isIP, target, now);
  }
}

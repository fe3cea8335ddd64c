/** Everything that generation produces is accepted by the integrity check. */
module SeedOutputValid {
  import opened Wrappers
  import opened Sequences
  import opened IsoTime
  import opened JsonTrees
  import opened RawIpText
  import opened SeededRandom
  import opened SeedTypes
  import opened SeedRules
  import opened SeedRelations
  import opened SeedGenerate
  import opened SeedFanOut
  import opened SeedRowsValid
  import opened SeedTextClean

  // ----- Children come from their bundles

  lemma {:induction false} TelemetryFromBundle(bundles: seq<Bundle>, row: Telemetry) returns (i: nat)
    requires row in AllTelemetry(bundles)
    ensures i < |bundles| && row in bundles[i].telemetry
  {
    var last := |bundles| - 1;
    if row in bundles[last].telemetry { i := last; } else { i := TelemetryFromBundle(bundles[..last], row); }
  }

  lemma {:induction false} ArtifactFromBundle(bundles: seq<Bundle>, row: Artifact) returns (i: nat)
    requires row in AllArtifacts(bundles)
    ensures i < |bundles| && row in bundles[i].artifacts
  {
    var last := |bundles| - 1;
    if row in bundles[last].artifacts { i := last; } else { i := ArtifactFromBundle(bundles[..last], row); }
  }

  lemma {:induction false} ReviewFromBundle(bundles: seq<Bundle>, row: Review) returns (i: nat)
    requires row in AllReviews(bundles)
    ensures i < |bundles| && row in bundles[i].reviews
  {
    var last := |bundles| - 1;
    if row in bundles[last].reviews { i := last; } else { i := ReviewFromBundle(bundles[..last], row); }
  }

  /** The hypotheses under which everything below is stated. */
  ghost predicate GenerationHypotheses(output: SeedOutput, bundles: seq<Bundle>, exports: seq<ParsedExport>, nowMs: int,
                                       digest: string -> string, isIP: string -> bool) {
    && Generated(output, bundles, exports, nowMs, digest)
    && (forall e :: e in exports ==> ValidExport(e))
    && HexDigest(digest) && RespectsAddressShape(isIP)
  }

  lemma BundleOf(output: SeedOutput, bundles: seq<Bundle>, exports: seq<ParsedExport>, nowMs: int,
                 digest: string -> string, isIP: string -> bool, i: nat)
    requires GenerationHypotheses(output, bundles, exports, nowMs, digest, isIP) && i < ROAST_COUNT
    ensures BundleFrom(bundles[i], i, exports, nowMs, digest)
    ensures var roast := bundles[i].roast;
            && roast.id.Some? && PlainChars(roast.id.value) && PlainChars(roast.idempotencyKey)
            && roast in output.cloudRoasts && output.cloudRoasts[i] == roast
            && RoastOk(roast, isIP)
            && nowMs - RETENTION_SAFE_SECONDS * 1000 <= bundles[i].draft.createdMs
  {
    hide RoastOk, PlainChars, IsBase58, SummaryJson, CloseSummary, SummaryFollows, LifecycleFits, IsValidSlug,
      IsCloudRoastId, ToIsoString, SeededRandom.IdempotencyKey, TelemetryFrom, ChildrenFrom, RoastExtras,
      ValidPerturbation, SummariesFrom;
    var b := bundles[i];
    var source := exports[i % |exports|];
    assert BundleFrom(b, i, exports, nowMs, digest);
    PlainId(b.roast.id.value);
    PlainKey(i, b.draft.token);
    RoastRowOk(b.roast, i, source.summary, nowMs, b.draft, isIP);
  }

  lemma TelemetryRowsOk(output: SeedOutput, bundles: seq<Bundle>, exports: seq<ParsedExport>, nowMs: int,
                        digest: string -> string, isIP: string -> bool, row: Telemetry)
    requires GenerationHypotheses(output, bundles, exports, nowMs, digest, isIP) && row in output.roastTelemetry
    ensures TelemetryOk(row, isIP) && row.roastId in RoastIds(output.cloudRoasts)
  {
    hide TelemetryOk, PlainChars, RoastFrom, ChildrenFrom, RoastOk, ValidTelemetryRow, StrictIso, RawJson,
      SummariesFrom;
    var i := TelemetryFromBundle(bundles, row);
    BundleOf(output, bundles, exports, nowMs, digest, isIP, i);
    var source := exports[i % |exports|];
    assert source in exports;
    var b := bundles[i];
    var k :| 0 <= k < |b.telemetry| && b.telemetry[k] == row;
    TelemetryRowOk(source.telemetry[k * SampleStep(|source.telemetry|)], b.roast.id.value, b.draft.perturbation, isIP);
  }

  lemma ArtifactRowsOk(output: SeedOutput, bundles: seq<Bundle>, exports: seq<ParsedExport>, nowMs: int,
                       digest: string -> string, isIP: string -> bool, row: Artifact)
    requires GenerationHypotheses(output, bundles, exports, nowMs, digest, isIP) && row in output.roastArtifacts
    ensures ArtifactOk(row, isIP) && row.roastId in RoastIds(output.cloudRoasts) && row.id == None
  {
    hide ArtifactOk, PlainChars, RoastFrom, RoastOk, TelemetryFrom, ReviewFrom, StampedBetween, InRange, SummariesFrom;
    var i := ArtifactFromBundle(bundles, row);
    BundleOf(output, bundles, exports, nowMs, digest, isIP, i);
    var b := bundles[i];
    var k :| 0 <= k < |b.artifacts| && b.artifacts[k] == row;
    ArtifactRowOk(row, k, b.roast, b.draft.createdMs, nowMs, isIP);
  }

  lemma ReviewRowsOk(output: SeedOutput, bundles: seq<Bundle>, exports: seq<ParsedExport>, nowMs: int,
                     digest: string -> string, isIP: string -> bool, row: Review)
    requires GenerationHypotheses(output, bundles, exports, nowMs, digest, isIP) && row in output.tastingReviews
    ensures ReviewOk(row, nowMs, isIP) && row.roastId in RoastIds(output.cloudRoasts) && row.id == None
  {
    hide ReviewOk, PlainChars, RoastFrom, RoastOk, TelemetryFrom, ArtifactFrom, StampedBetween, InRange, PercentDraw,
      HexDigest, SummariesFrom;
    var i := ReviewFromBundle(bundles, row);
    BundleOf(output, bundles, exports, nowMs, digest, isIP, i);
    var b := bundles[i];
    var k :| 0 <= k < |b.reviews| && b.reviews[k] == row;
    ReviewRowOk(row, k, b.roast, b.draft.createdMs, nowMs, digest, isIP);
  }

  // ----- Identities

  lemma {:induction false} TrackedPresent<K>(keys: seq<Option<K>>, n: nat)
    requires n <= |keys| && forall i :: 0 <= i < n ==> keys[i].Some?
    ensures |Tracked(keys, n)| == n && forall i :: 0 <= i < n ==> Tracked(keys, n)[i] == keys[i].value
  {
    if n > 0 { TrackedPresent(keys, n - 1); }
  }

  lemma {:induction false} TrackedAbsent<K>(keys: seq<Option<K>>, n: nat)
    requires n <= |keys| && forall i :: 0 <= i < n ==> keys[i].None?
    ensures Tracked(keys, n) == []
  {
    if n > 0 { TrackedAbsent(keys, n - 1); }
  }

  lemma PresentDistinct<K>(keys: seq<Option<K>>)
    requires (forall i :: 0 <= i < |keys| ==> keys[i].Some?) && Distinct(keys)
    ensures DistinctPresent(keys)
  {
    TrackedPresent(keys, |keys|);
  }

  /** Idempotency keys carry the roast's position, so no draw can make two of them equal. */
  lemma GeneratedKeysDistinct(output: SeedOutput, bundles: seq<Bundle>, exports: seq<ParsedExport>, nowMs: int,
                              digest: string -> string)
    requires Generated(output, bundles, exports, nowMs, digest)
    ensures DistinctPresent(IdempotencyKeys(output.cloudRoasts))
  {
    hide SeededRandom.IdempotencyKey, SummariesFrom, TelemetryFrom, ChildrenFrom, RoastExtras, IsValidSlug,
      IsCloudRoastId, ToIsoString, SummaryJson, CloseSummary, SummaryFollows, LifecycleFits, ValidPerturbation,
      IsBase58, OriginOf, LevelOf;
    var keys := IdempotencyKeys(output.cloudRoasts);
    forall i, j | 0 <= i < j < |keys| ensures keys[i] != keys[j] {
      assert BundleFrom(bundles[i], i, exports, nowMs, digest) && BundleFrom(bundles[j], j, exports, nowMs, digest);
      if keys[i] == keys[j] {
        IdempotencyKeyInjective(i, bundles[i].draft.token, j, bundles[j].draft.token);
      }
    }
    PresentDistinct(keys);
  }

  lemma OriginsDistinct(i: nat, j: nat)
    requires i < 4 && j < 4 && BEAN_ORIGINS[i] == BEAN_ORIGINS[j]
    ensures i == j
  {
  }

  lemma LevelsDistinct(i: nat, j: nat)
    requires i < 3 && j < 3 && ROAST_LEVELS[i] == ROAST_LEVELS[j]
    ensures i == j
  {
  }

  lemma GroupsDistinct(g: nat, h: nat)
    requires g < GROUP_COUNT && h < GROUP_COUNT
    requires BEAN_ORIGINS[g % 4] == BEAN_ORIGINS[h % 4] && ROAST_LEVELS[g / 4] == ROAST_LEVELS[h / 4]
    ensures g == h
  {
    OriginsDistinct(g % 4, h % 4);
    LevelsDistinct(g / 4, h / 4);
  }

  lemma SummaryGroupsDistinct(summaries: seq<ReferenceSummary>, roasts: seq<CloudRoast>, reviews: seq<Review>,
                              nowIso: string)
    requires SummariesFrom(summaries, roasts, reviews, nowIso)
    ensures DistinctPresent(SummaryGroupKeys(summaries)) && DistinctPresent(SummaryIdKeys(summaries))
  {
    hide ContributingRoasts, ReviewsOf, Mean, Scores, DevelopmentPercents, FirstCrackTimes, TotalTimes, RoastIds;
    var keys := SummaryGroupKeys(summaries);
    forall g, h | 0 <= g < h < |keys| ensures keys[g] != keys[h] {
      if keys[g] == keys[h] { GroupsDistinct(g, h); }
    }
    PresentDistinct(keys);
    TrackedAbsent(SummaryIdKeys(summaries), |summaries|);
  }

  /** The two identities whose uniqueness rests on the random draws. */
  predicate DrawsDistinct(output: SeedOutput) {
    Distinct(RoastIdKeys(output.cloudRoasts)) && Distinct(SlugKeys(output.cloudRoasts))
  }

  lemma GeneratedIdentitiesUnique(output: SeedOutput, bundles: seq<Bundle>, exports: seq<ParsedExport>, nowMs: int,
                                  digest: string -> string, isIP: string -> bool)
    requires GenerationHypotheses(output, bundles, exports, nowMs, digest, isIP) && DrawsDistinct(output)
    ensures IdentitiesUnique(output)
  {
    hide BundleFrom, SummariesFrom, Distinct, Tracked, ArtifactOk, ReviewOk, RoastOk, PlainChars, RoastIds;
    forall i | 0 <= i < |output.cloudRoasts| ensures output.cloudRoasts[i].id.Some? {
      BundleOf(output, bundles, exports, nowMs, digest, isIP, i);
    }
    PresentDistinct(RoastIdKeys(output.cloudRoasts));
    PresentDistinct(SlugKeys(output.cloudRoasts));
    GeneratedKeysDistinct(output, bundles, exports, nowMs, digest);
    SummaryGroupsDistinct(output.referenceRoastSummaries, output.cloudRoasts, output.tastingReviews,
                          ToIsoString(nowMs));
    forall i | 0 <= i < |output.roastArtifacts| ensures output.roastArtifacts[i].id.None? {
      ArtifactRowsOk(output, bundles, exports, nowMs, digest, isIP, output.roastArtifacts[i]);
    }
    forall i | 0 <= i < |output.tastingReviews| ensures output.tastingReviews[i].id.None? {
      ReviewRowsOk(output, bundles, exports, nowMs, digest, isIP, output.tastingReviews[i]);
    }
    TrackedAbsent(ArtifactIdKeys(output.roastArtifacts), |output.roastArtifacts|);
    TrackedAbsent(ReviewIdKeys(output.tastingReviews), |output.tastingReviews|);
    EmptyDistinct();
  }

  lemma EmptyDistinct()
    ensures Distinct<string>([])
  {
  }

  // ----- Groups and aggregates

  lemma RoastAt(output: SeedOutput, bundles: seq<Bundle>, exports: seq<ParsedExport>, nowMs: int,
                digest: string -> string, i: nat)
    requires Generated(output, bundles, exports, nowMs, digest) && i < ROAST_COUNT
    ensures var r := output.cloudRoasts[i];
            && |output.cloudRoasts| == ROAST_COUNT && r.contributedToLearning
            && r.beanOrigin == Some(BEAN_ORIGINS[i / 2 % 4]) && r.roastLevel == Some(ROAST_LEVELS[i / 2 / 4])
  {
    hide SummariesFrom, TelemetryFrom, ChildrenFrom, RoastExtras, SeededRandom.IdempotencyKey, ToIsoString, SummaryJson,
      CloseSummary, SummaryFollows, LifecycleFits, IsValidSlug, IsCloudRoastId, IsBase58, ValidPerturbation;
    assert BundleFrom(bundles[i], i, exports, nowMs, digest);
  }

  lemma SummaryAt(output: SeedOutput, bundles: seq<Bundle>, exports: seq<ParsedExport>, nowMs: int,
                  digest: string -> string, g: nat)
    requires Generated(output, bundles, exports, nowMs, digest) && g < GROUP_COUNT
    ensures |output.referenceRoastSummaries| == GROUP_COUNT
    ensures SummaryGroup(output.referenceRoastSummaries[g])
            == Group(Some(BEAN_ORIGINS[g % 4]), Some(ROAST_LEVELS[g / 4]))
  {
    hide BundleFrom, ContributingRoasts, ReviewsOf, Mean, Scores, DevelopmentPercents, FirstCrackTimes, TotalTimes,
      RoastIds, ToIsoString;
  }

  lemma GeneratedGroupsCovered(output: SeedOutput, bundles: seq<Bundle>, exports: seq<ParsedExport>, nowMs: int,
                               digest: string -> string)
    requires Generated(output, bundles, exports, nowMs, digest)
    ensures Covered(output.cloudRoasts, output.referenceRoastSummaries)
  {
    hide Generated;
    var roasts, summaries := output.cloudRoasts, output.referenceRoastSummaries;
    RoastAt(output, bundles, exports, nowMs, digest, 0);
    SummaryAt(output, bundles, exports, nowMs, digest, 0);
    forall group ensures Contributes(roasts, group) <==> Summarised(summaries, group) {
      if Contributes(roasts, group) {
        var i :| 0 <= i < |roasts| && roasts[i].contributedToLearning && RoastGroup(roasts[i]) == group;
        RoastAt(output, bundles, exports, nowMs, digest, i);
        SummaryAt(output, bundles, exports, nowMs, digest, i / 2);
        assert SummaryGroup(summaries[i / 2]) == group;
      }
      if Summarised(summaries, group) {
        var g :| 0 <= g < |summaries| && SummaryGroup(summaries[g]) == group;
        RoastAt(output, bundles, exports, nowMs, digest, 2 * g);
        SummaryAt(output, bundles, exports, nowMs, digest, g);
        assert RoastGroup(roasts[2 * g]) == group;
      }
    }
  }

  /** The two members of group `g`, among the first `n` roasts. */
  function PairUpTo(roasts: seq<CloudRoast>, g: nat, n: nat): seq<CloudRoast>
    requires n <= |roasts|
  {
    if n <= 2 * g then [] else if n == 2 * g + 1 then [roasts[2 * g]] else [roasts[2 * g], roasts[2 * g + 1]]
  }

  predicate InGroup(r: CloudRoast, origin: string, level: string) {
    r.beanOrigin == Some(origin) && r.roastLevel == Some(level) && r.contributedToLearning
  }

  lemma ContributingStep(roasts: seq<CloudRoast>, n: nat, origin: string, level: string)
    requires 0 < n <= |roasts|
    ensures ContributingRoasts(roasts[..n], origin, level)
            == ContributingRoasts(roasts[..n - 1], origin, level)
               + if InGroup(roasts[n - 1], origin, level) then [roasts[n - 1]] else []
  {
    assert roasts[..n][..n - 1] == roasts[..n - 1];
  }

  lemma {:induction false} GroupMembersUpTo(roasts: seq<CloudRoast>, origin: string, level: string, g: nat, n: nat)
    requires n <= |roasts| && forall i :: 0 <= i < n ==> (InGroup(roasts[i], origin, level) <==> i / 2 == g)
    ensures ContributingRoasts(roasts[..n], origin, level) == PairUpTo(roasts, g, n)
  {
    hide ContributingRoasts, InGroup;
    if n > 0 {
      GroupMembersUpTo(roasts, origin, level, g, n - 1);
      ContributingStep(roasts, n, origin, level);
    } else {
      NoneContribute(origin, level);
      assert roasts[..0] == [];
    }
  }

  lemma NoneContribute(origin: string, level: string)
    ensures ContributingRoasts([], origin, level) == []
  {
  }

  /** Positions and groups are in bijection: group `g` consists of roasts 2g and 2g + 1. */
  lemma GroupMembers(output: SeedOutput, bundles: seq<Bundle>, exports: seq<ParsedExport>, nowMs: int,
                     digest: string -> string, g: nat)
    requires Generated(output, bundles, exports, nowMs, digest) && g < GROUP_COUNT
    ensures |output.cloudRoasts| == ROAST_COUNT && |output.referenceRoastSummaries| == GROUP_COUNT
    ensures var s := output.referenceRoastSummaries[g];
            && ContributingRoasts(output.cloudRoasts, s.beanOrigin, s.roastLevel)
               == output.cloudRoasts[2 * g..2 * g + 2]
            && s.roastCount == Fin(2.0)
  {
    hide BundleFrom, ContributingRoasts, ReviewsOf, Mean, Scores, DevelopmentPercents, FirstCrackTimes, TotalTimes,
      RoastIds;
    var roasts := output.cloudRoasts;
    forall i | 0 <= i < ROAST_COUNT
      ensures InGroup(roasts[i], BEAN_ORIGINS[g % 4], ROAST_LEVELS[g / 4]) <==> i / 2 == g
    {
      RoastAt(output, bundles, exports, nowMs, digest, i);
      if InGroup(roasts[i], BEAN_ORIGINS[g % 4], ROAST_LEVELS[g / 4]) { GroupsDistinct(i / 2, g); }
    }
    GroupMembersUpTo(roasts, BEAN_ORIGINS[g % 4], ROAST_LEVELS[g / 4], g, ROAST_COUNT);
    assert output.cloudRoasts[..ROAST_COUNT] == output.cloudRoasts;
  }

  lemma MeanSelfEqual(values: seq<Num>)
    requires AllFinite(values)
    ensures StrictlyEqual(Mean(values), Mean(values)) && ApproximatelyEqual(Mean(values), Mean(values))
  {
  }

  lemma ClosedProperties(c: ClosedSummary)
    ensures Property(SummaryJson(c), "development_time_percent") == Some(JNum(c.developmentTimePercent))
    ensures Property(SummaryJson(c), "total_roast_seconds") == Some(JNum(c.totalRoastSeconds))
    ensures Property(SummaryJson(c), "beans_added_at_utc") == Some(JStr(c.beansAddedAtUtc))
    ensures Property(SummaryJson(c), "first_crack_at_utc") == Some(JStr(c.firstCrackAtUtc))
  {
    FigureProperties(c);
    TimeProperties(c);
  }

  lemma MemberMeansFinite(source: ParsedSummary, roastedAt: string, p: Perturbation)
    requires LifecycleFits(source, roastedAt)
    ensures var summary := SummaryJson(CloseSummary(source, roastedAt, p));
            && NumberProperty(summary, "development_time_percent").Fin?
            && FirstCrackSeconds(summary).Fin?
            && NumberProperty(summary, "total_roast_seconds").Fin?
  {
    hide SummaryJson, CloseSummary, SummaryFollows, LifecycleFits, DateParse, StrictIso, EpochMicroseconds;
    var c := CloseSummary(source, roastedAt, p);
    ClosedProperties(c);
    LifecyclePreserved(source, roastedAt, p);
    StrictIsoHasInstant(c.firstCrackAtUtc);
    StrictIsoHasInstant(c.beansAddedAtUtc);
  }

  lemma RoastFinite(output: SeedOutput, bundles: seq<Bundle>, exports: seq<ParsedExport>, nowMs: int,
                    digest: string -> string, roast: CloudRoast)
    requires Generated(output, bundles, exports, nowMs, digest) && roast in output.cloudRoasts
    ensures NumberProperty(roast.summary, "development_time_percent").Fin? && FirstCrackSeconds(roast.summary).Fin?
    ensures NumberProperty(roast.summary, "total_roast_seconds").Fin?
  {
    hide SummariesFrom, TelemetryFrom, ChildrenFrom, RoastExtras, SeededRandom.IdempotencyKey, ToIsoString, SummaryJson,
      CloseSummary, SummaryFollows, LifecycleFits, IsValidSlug, IsCloudRoastId, IsBase58, ValidPerturbation,
      NumberProperty, FirstCrackSeconds;
    var i :| 0 <= i < |output.cloudRoasts| && output.cloudRoasts[i] == roast;
    assert BundleFrom(bundles[i], i, exports, nowMs, digest);
    var source := exports[i % |exports|].summary;
    MemberMeansFinite(source, ToIsoString(bundles[i].draft.roastedMs), bundles[i].draft.perturbation);
  }

  lemma GeneratedAggregatesMatch(output: SeedOutput, bundles: seq<Bundle>, exports: seq<ParsedExport>, nowMs: int,
                                 digest: string -> string, isIP: string -> bool, s: ReferenceSummary)
    requires GenerationHypotheses(output, bundles, exports, nowMs, digest, isIP) && s in output.referenceRoastSummaries
    ensures AggregatesMatch(output, s)
  {
    hide BundleFrom, Mean, StrictlyEqual, ApproximatelyEqual, ReviewOk, NumberProperty, FirstCrackSeconds, RoastIds;
    var members := ContributingRoasts(output.cloudRoasts, s.beanOrigin, s.roastLevel);
    var reviews := ReviewsOf(output.tastingReviews, RoastIds(members));
    forall i | 0 <= i < |members|
      ensures NumberProperty(members[i].summary, "development_time_percent").Fin?
              && FirstCrackSeconds(members[i].summary).Fin?
      ensures NumberProperty(members[i].summary, "total_roast_seconds").Fin?
    {
      assert members[i] in members;
      RoastFinite(output, bundles, exports, nowMs, digest, members[i]);
    }
    forall i | 0 <= i < |reviews| ensures reviews[i].score.Fin? {
      assert reviews[i] in reviews;
      ReviewRowsOk(output, bundles, exports, nowMs, digest, isIP, reviews[i]);
      ReviewScore(reviews[i], nowMs, isIP);
    }
    MeanSelfEqual(Scores(reviews));
    MeanSelfEqual(DevelopmentPercents(members));
    MeanSelfEqual(FirstCrackTimes(members));
    MeanSelfEqual(TotalTimes(members));
  }

  lemma ReviewScore(r: Review, nowMs: int, isIP: string -> bool)
    requires ReviewOk(r, nowMs, isIP)
    ensures r.score.Fin?
  {
  }

  lemma SummaryRowsOk(output: SeedOutput, bundles: seq<Bundle>, exports: seq<ParsedExport>, nowMs: int,
                      digest: string -> string, isIP: string -> bool, s: ReferenceSummary)
    requires GenerationHypotheses(output, bundles, exports, nowMs, digest, isIP) && s in output.referenceRoastSummaries
    ensures SummaryOk(s, isIP)
  {
    hide BundleFrom, ContributingRoasts, ReviewsOf, Mean, Scores, DevelopmentPercents, FirstCrackTimes, TotalTimes,
      RoastIds, PlainChars, IpFree, ToIsoString, RespectsAddressShape, NoRawIpCells;
    var g :| 0 <= g < GROUP_COUNT && output.referenceRoastSummaries[g] == s;
    PlainOrigins(g % 4);
    PlainLevels(g / 4);
    StampHasNoIp(nowMs, isIP);
    forall c | c in Columns(ReferenceRoastSummaries) ensures SafeText(SummaryCell(s, c), isIP) {
    }
    SafeCells(ReferenceRoastSummaries, c => SummaryCell(s, c), isIP);
  }

  /** Generated output passes the complete integrity check, whenever no two id or slug draws coincide. */
  lemma GeneratedOutputIsValid(output: SeedOutput, bundles: seq<Bundle>, exports: seq<ParsedExport>, nowMs: int,
                               digest: string -> string, isIP: string -> bool)
    requires Generated(output, bundles, exports, nowMs, digest)
    requires forall e :: e in exports ==> ValidExport(e)
    requires HexDigest(digest) && RespectsAddressShape(isIP)
    requires DrawsDistinct(output)
    ensures ValidOutput(output, nowMs, isIP)
  {
    hide Generated, ValidExport, HexDigest, RespectsAddressShape, RoastOk, TelemetryOk, ArtifactOk, ReviewOk, SummaryOk,
      IdentitiesUnique, Covered, AggregatesMatch, RoastIds, DrawsDistinct, BundleFrom, PlainChars;
    assert GenerationHypotheses(output, bundles, exports, nowMs, digest, isIP);
    forall row | row in output.cloudRoasts ensures RoastOk(row, isIP) {
      var i :| 0 <= i < |output.cloudRoasts| && output.cloudRoasts[i] == row;
      RoastCountIs(output, bundles, exports, nowMs, digest);
      BundleOf(output, bundles, exports, nowMs, digest, isIP, i);
    }
    forall row | row in output.roastTelemetry
      ensures TelemetryOk(row, isIP) && row.roastId in RoastIds(output.cloudRoasts)
    {
      TelemetryRowsOk(output, bundles, exports, nowMs, digest, isIP, row);
    }
    forall row | row in output.roastArtifacts
      ensures ArtifactOk(row, isIP) && row.roastId in RoastIds(output.cloudRoasts)
    {
      ArtifactRowsOk(output, bundles, exports, nowMs, digest, isIP, row);
    }
    forall row | row in output.tastingReviews
      ensures ReviewOk(row, nowMs, isIP) && row.roastId in RoastIds(output.cloudRoasts)
    {
      ReviewRowsOk(output, bundles, exports, nowMs, digest, isIP, row);
    }
    forall s | s in output.referenceRoastSummaries ensures SummaryOk(s, isIP) && AggregatesMatch(output, s) {
      SummaryRowsOk(output, bundles, exports, nowMs, digest, isIP, s);
      GeneratedAggregatesMatch(output, bundles, exports, nowMs, digest, isIP, s);
    }
    GeneratedIdentitiesUnique(output, bundles, exports, nowMs, digest, isIP);
    GeneratedGroupsCovered(output, bundles, exports, nowMs, digest);
  }

  lemma RoastCountIs(output: SeedOutput, bundles: seq<Bundle>, exports: seq<ParsedExport>, nowMs: int,
                     digest: string -> string)
    requires Generated(output, bundles, exports, nowMs, digest)
    ensures |output.cloudRoasts| == |bundles| == ROAST_COUNT
  {
  }
}

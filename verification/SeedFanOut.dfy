/** The whole generation: 24 roasts with their children, then one reference summary per group. */
module SeedFanOut {
  import opened Wrappers
  import opened Sequences
  import opened IsoTime
  import opened JsonTrees
  import opened SeededRandom
  import opened SeedTypes
  import opened SeedRules
  import opened SeedRelations
  import opened SeedGenerate

  /** One roast with everything generated for it. */
  datatype Bundle = Bundle(
    roast: CloudRoast, telemetry: seq<Telemetry>, artifacts: seq<Artifact>, reviews: seq<Review>, draft: Draft)

  ghost predicate ChildrenFrom(b: Bundle, nowMs: int, digest: string -> string) {
    && 1 <= |b.artifacts| <= |ARTIFACT_KINDS|
    && (forall i :: 0 <= i < |b.artifacts| ==> ArtifactFrom(b.artifacts[i], i, b.roast, b.draft.createdMs, nowMs))
    && 1 <= |b.reviews| <= 3
    && (forall i :: 0 <= i < |b.reviews| ==> ReviewFrom(b.reviews[i], i, b.roast, b.draft.createdMs, nowMs, digest))
  }

  ghost predicate BundleFrom(b: Bundle, index: nat, exports: seq<ParsedExport>, nowMs: int, digest: string -> string)
    requires index < ROAST_COUNT && exports != []
  {
    var source := exports[index % |exports|];
    && RoastFrom(b.roast, index, source.summary, nowMs, b.draft)
    && TelemetryFrom(b.telemetry, source.telemetry, b.roast.id.value, b.draft.perturbation)
    && ChildrenFrom(b, nowMs, digest)
  }

  function Roasts(bundles: seq<Bundle>): (r: seq<CloudRoast>)
    ensures |r| == |bundles| && forall i :: 0 <= i < |r| ==> r[i] == bundles[i].roast
  {
    Map((b: Bundle) => b.roast, bundles)
  }

  function AllTelemetry(bundles: seq<Bundle>): seq<Telemetry> {
    if bundles == [] then [] else AllTelemetry(bundles[..|bundles| - 1]) + bundles[|bundles| - 1].telemetry
  }

  function AllArtifacts(bundles: seq<Bundle>): seq<Artifact> {
    if bundles == [] then [] else AllArtifacts(bundles[..|bundles| - 1]) + bundles[|bundles| - 1].artifacts
  }

  function AllReviews(bundles: seq<Bundle>): seq<Review> {
    if bundles == [] then [] else AllReviews(bundles[..|bundles| - 1]) + bundles[|bundles| - 1].reviews
  }

  const GROUP_COUNT := 12

  function SummaryRow(roasts: seq<CloudRoast>, reviews: seq<Review>, origin: string, level: string, nowIso: string)
      : ReferenceSummary
  {
    var members := ContributingRoasts(roasts, origin, level);
    var rated := ReviewsOf(reviews, RoastIds(members));
    ReferenceSummary(
      None, origin, level, Fin(|members| as real), Fin(|rated| as real), Mean(Scores(rated)),
      None, None, None, None,
      Mean(DevelopmentPercents(members)), Mean(FirstCrackTimes(members)), Mean(TotalTimes(members)),
      JArr([]), nowIso)
  }

  ghost predicate SummariesFrom(summaries: seq<ReferenceSummary>, roasts: seq<CloudRoast>, reviews: seq<Review>,
                                nowIso: string)
  {
    && |summaries| == GROUP_COUNT
    && forall g :: 0 <= g < GROUP_COUNT ==>
         summaries[g] == SummaryRow(roasts, reviews, BEAN_ORIGINS[g % 4], ROAST_LEVELS[g / 4], nowIso)
  }

  /** How a generated output follows from the exports and the generation time. */
  ghost predicate Generated(output: SeedOutput, bundles: seq<Bundle>, exports: seq<ParsedExport>, nowMs: int,
                            digest: string -> string)
  {
    && exports != [] && |bundles| == ROAST_COUNT && GenerationTimeFits(nowMs) && FourDigitYear(nowMs / 1000)
    && (forall i :: 0 <= i < ROAST_COUNT ==> BundleFrom(bundles[i], i, exports, nowMs, digest))
    && output.cloudRoasts == Roasts(bundles)
    && output.roastTelemetry == AllTelemetry(bundles)
    && output.roastArtifacts == AllArtifacts(bundles)
    && output.tastingReviews == AllReviews(bundles)
    && SummariesFrom(output.referenceRoastSummaries, output.cloudRoasts, output.tastingReviews, ToIsoString(nowMs))
  }

  datatype GenerateError = NoExports | InvalidTime

  method GenerateBundle(index: nat, exports: seq<ParsedExport>, nowMs: int, digest: string -> string, rng: SeededRng)
    returns (roast: CloudRoast, telemetry: seq<Telemetry>, artifacts: seq<Artifact>, reviews: seq<Review>,
             ghost d: Draft)
    requires index < ROAST_COUNT && exports != [] && rng.sequence == index
    requires GenerationTimeFits(nowMs) && LifecycleWindowFits(exports[index % |exports|].summary, nowMs)
    requires rng.state + 168 * INCREMENT < EXACT_LIMIT
    modifies rng
    ensures old(rng.state) <= rng.state <= old(rng.state) + 168 * INCREMENT && rng.sequence == index + 1
    ensures BundleFrom(Bundle(roast, telemetry, artifacts, reviews, d), index, exports, nowMs, digest)
  {
    hide ArtifactDrawn, ReviewDrawn, RoastDrawn, Picked, Nth, LifecycleWindowFits, TelemetryFrom, ArtifactFrom,
      ReviewFrom, IsCloudRoastId, IsValidSlug, SeededRandom.IdempotencyKey, RoastExtras, SummaryJson, CloseSummary,
      SummaryFollows, ToIsoString, ValidPerturbation, IsBase58, LifecycleFits, OriginOf, LevelOf;
    var source := exports[index % |exports|];
    var p, createdMs;
    roast, p, createdMs, d := GenerateRoast(index, source.summary, nowMs, rng);
    telemetry := PerturbTelemetry(source.telemetry, roast.id.value, p);
    artifacts := GenerateArtifacts(roast, createdMs, nowMs, rng);
    reviews := GenerateReviews(roast, createdMs, nowMs, digest, rng);
  }

  method SummarizeGroups(roasts: seq<CloudRoast>, reviews: seq<Review>, nowIso: string)
    returns (summaries: seq<ReferenceSummary>)
    ensures SummariesFrom(summaries, roasts, reviews, nowIso)
  {
    hide SummaryRow;
    summaries := [];
    for level := 0 to |ROAST_LEVELS|
      invariant |summaries| == 4 * level
      invariant forall g :: 0 <= g < |summaries| ==>
                  summaries[g] == SummaryRow(roasts, reviews, BEAN_ORIGINS[g % 4], ROAST_LEVELS[g / 4], nowIso)
    {
      for origin := 0 to |BEAN_ORIGINS|
        invariant |summaries| == 4 * level + origin
        invariant forall g :: 0 <= g < |summaries| ==>
                    summaries[g] == SummaryRow(roasts, reviews, BEAN_ORIGINS[g % 4], ROAST_LEVELS[g / 4], nowIso)
      {
        summaries := summaries + [SummaryRow(roasts, reviews, BEAN_ORIGINS[origin], ROAST_LEVELS[level], nowIso)];
      }
    }
  }

  /** `digest` is SHA-256 in lowercase hexadecimal; a generation time of None is an invalid Date. */
  method Generate(exports: seq<ParsedExport>, now: Option<int>, digest: string -> string)
    returns (result: Result<SeedOutput, GenerateError>, ghost bundles: seq<Bundle>)
    requires now.Some? ==>
               && GenerationTimeFits(now.value)
               && forall e :: e in exports ==> ValidExport(e) && LifecycleWindowFits(e.summary, now.value)
    ensures result == Failure(NoExports) <==> exports == []
    ensures result == Failure(InvalidTime) <==> exports != [] && now.None?
    ensures result.Success? ==> now.Some? && Generated(result.value, bundles, exports, now.value, digest)
  {
    hide BundleFrom, SummariesFrom, LifecycleWindowFits, ValidExport, ToIsoString;
    bundles := [];
    if exports == [] {
      return Failure(NoExports), bundles;
    }
    if now.None? {
      return Failure(InvalidTime), bundles;
    }
    var nowMs := now.value;
    var rng := new SeededRng(FIXED_SEED);
    var output := SeedOutput([], [], [], [], []);
    for index := 0 to ROAST_COUNT
      invariant rng.sequence == index && rng.state <= WORD + 168 * index * INCREMENT
      invariant |bundles| == index
      invariant forall i :: 0 <= i < index ==> BundleFrom(bundles[i], i, exports, nowMs, digest)
      invariant output
                == SeedOutput(Roasts(bundles), AllTelemetry(bundles), AllArtifacts(bundles), AllReviews(bundles), [])
    {
      var roast, telemetry, artifacts, reviews;
      ghost var d;
      roast, telemetry, artifacts, reviews, d := GenerateBundle(index, exports, nowMs, digest, rng);
      ghost var next := bundles + [Bundle(roast, telemetry, artifacts, reviews, d)];
      assert next[..|next| - 1] == bundles;
      assert Roasts(next) == Roasts(bundles) + [roast];
      output := SeedOutput(output.cloudRoasts + [roast], output.roastTelemetry + telemetry,
                           output.roastArtifacts + artifacts, output.tastingReviews + reviews, []);
      bundles := next;
    }
    WindowYears(nowMs, nowMs);
    var summaries := SummarizeGroups(output.cloudRoasts, output.tastingReviews, ToIsoString(nowMs));
    output := output.(referenceRoastSummaries := summaries);
    result := Success(output);
  }
}

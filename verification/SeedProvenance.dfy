/** Everything generated, traced to the export it comes from. */
module SeedProvenance {
  import opened Wrappers
  import opened Sequences
  import opened IsoTime
  import opened JsonTrees
  import opened SeededRandom
  import opened SeedTypes
  import opened SeedRules
  import opened SeedRelations
  import opened SeedGenerate
  import opened SeedFanOut
  import opened SeedOutputValid

  /** The export that the `i`th roast is made from. */
  function SourceOf(exports: seq<ParsedExport>, i: nat): ParsedExport
    requires exports != []
  {
    exports[i % |exports|]
  }

  lemma BundleAt(output: SeedOutput, bundles: seq<Bundle>, exports: seq<ParsedExport>, nowMs: int,
                 digest: string -> string, i: nat)
    requires Generated(output, bundles, exports, nowMs, digest) && i < ROAST_COUNT
    ensures |output.cloudRoasts| == |bundles| == ROAST_COUNT && output.cloudRoasts[i] == bundles[i].roast
    ensures exports != [] && bundles[i].roast.id.Some?
    ensures RoastFrom(bundles[i].roast, i, SourceOf(exports, i).summary, nowMs, bundles[i].draft)
    ensures TelemetryFrom(bundles[i].telemetry, SourceOf(exports, i).telemetry, bundles[i].roast.id.value,
                          bundles[i].draft.perturbation)
  {
    hide TelemetryFrom, ChildrenFrom, SummariesFrom, SummaryFollows, RoastExtras, IsValidSlug, IsCloudRoastId,
      ToIsoString, SummaryJson, CloseSummary, LifecycleFits, ValidPerturbation, IsBase58, OriginOf, LevelOf,
      SeededRandom.IdempotencyKey;
    assert BundleFrom(bundles[i], i, exports, nowMs, digest);
  }

  /** Every telemetry row of the output follows a selected sample of its own roast's export. */
  lemma TelemetryTraced(output: SeedOutput, bundles: seq<Bundle>, exports: seq<ParsedExport>, nowMs: int,
                        digest: string -> string, row: Telemetry)
    returns (i: nat, k: nat)
    requires Generated(output, bundles, exports, nowMs, digest) && row in output.roastTelemetry
    ensures i < ROAST_COUNT && exports != [] && |output.cloudRoasts| == |bundles| == ROAST_COUNT
    ensures var samples := SourceOf(exports, i).telemetry;
            && k < |samples| && k % SampleStep(|samples|) == 0 && output.cloudRoasts[i].id.Some?
            && FollowsSample(row, samples[k], output.cloudRoasts[i].id.value, bundles[i].draft.perturbation)
  {
    hide RoastFrom, FollowsSample, SampleStep, PerturbedRow, BundleFrom, SummariesFrom;
    i := TelemetryFromBundle(bundles, row);
    BundleAt(output, bundles, exports, nowMs, digest, i);
    var rows, step := bundles[i].telemetry, SampleStep(|SourceOf(exports, i).telemetry|);
    var at :| 0 <= at < |rows| && rows[at] == row;
    k := at * step;
    RemainderUnique(k, step, at, 0);
  }

  lemma {:induction false} BundleTelemetry(bundles: seq<Bundle>, i: nat, row: Telemetry)
    requires i < |bundles| && row in bundles[i].telemetry
    ensures row in AllTelemetry(bundles)
  {
    var last := |bundles| - 1;
    if i < last { BundleTelemetry(bundles[..last], i, row); }
  }

  /** Every selected sample of every roast's export is followed by a row of the output. */
  lemma SampleTraced(output: SeedOutput, bundles: seq<Bundle>, exports: seq<ParsedExport>, nowMs: int,
                     digest: string -> string, i: nat, k: nat)
    returns (row: Telemetry)
    requires Generated(output, bundles, exports, nowMs, digest) && i < ROAST_COUNT
    requires k < |SourceOf(exports, i).telemetry| && k % SampleStep(|SourceOf(exports, i).telemetry|) == 0
    ensures row in output.roastTelemetry && |output.cloudRoasts| == |bundles| == ROAST_COUNT
    ensures output.cloudRoasts[i].id.Some?
    ensures FollowsSample(row, SourceOf(exports, i).telemetry[k], output.cloudRoasts[i].id.value,
                          bundles[i].draft.perturbation)
  {
    hide RoastFrom, FollowsSample, SampleStep, TelemetryFrom, BundleFrom, SummariesFrom, SourceOf;
    BundleAt(output, bundles, exports, nowMs, digest, i);
    var rows, samples := bundles[i].telemetry, SourceOf(exports, i).telemetry;
    row := RowFollows(rows, samples, bundles[i].roast.id.value, bundles[i].draft.perturbation, k);
    BundleTelemetry(bundles, i, row);
  }

  lemma RowFollows(rows: seq<Telemetry>, samples: seq<ParsedTelemetry>, roastId: string, p: Perturbation, k: nat)
    returns (row: Telemetry)
    requires TelemetryFrom(rows, samples, roastId, p) && k < |samples| && k % SampleStep(|samples|) == 0
    ensures row in rows && FollowsSample(row, samples[k], roastId, p)
  {
    hide FollowsSample, SampleStep, PerturbedRow;
    var step := SampleStep(|samples|);
    var at := k / step;
    assert at * step == k;
    RowsReach(|rows|, at, step, |samples|);
    row := rows[at];
  }

  lemma RowsReach(rows: nat, k: nat, step: nat, n: nat)
    requires k * step < n <= rows * step
    ensures k < rows
  {
    if rows <= k { ScaleUp(rows, k, step); }
  }

  lemma ScaleUp(a: nat, b: nat, step: nat)
    requires a <= b
    ensures a * step <= b * step
  {
  }

  /** Every roast's summary holds its export's figures, and its events as far apart as there. */
  lemma SummaryTraced(output: SeedOutput, bundles: seq<Bundle>, exports: seq<ParsedExport>, nowMs: int,
                      digest: string -> string, i: nat)
    requires Generated(output, bundles, exports, nowMs, digest) && i < ROAST_COUNT
    ensures |output.cloudRoasts| == |bundles| == ROAST_COUNT && output.cloudRoasts[i].roastedAtUtc.Some?
    ensures SummaryFollows(output.cloudRoasts[i].summary, SourceOf(exports, i).summary,
                           output.cloudRoasts[i].roastedAtUtc.value, bundles[i].draft.perturbation)
  {
    hide Generated, TelemetryFrom, SummaryFollows, RoastExtras, IsValidSlug, IsCloudRoastId, ToIsoString, SummaryJson,
      CloseSummary, LifecycleFits, ValidPerturbation, IsBase58, OriginOf, LevelOf, SeededRandom.IdempotencyKey;
    BundleAt(output, bundles, exports, nowMs, digest, i);
  }

  lemma MeanOfTwo(values: seq<Num>, a: real, b: real)
    requires values == [Fin(a), Fin(b)]
    ensures Mean(values).Some? && Mean(values).value.Fin? && Mean(values).value.value * 2.0 == a + b
  {
    hide Mean;
    MeanOfOne(a);
    MeanGrows([Fin(a)], b);
    assert [Fin(a)] + [Fin(b)] == values;
    MeanIs(values);
  }

  lemma PairFigures(a: CloudRoast, b: CloudRoast, p: real, q: real, x: real, y: real)
    requires Property(a.summary, "development_time_percent") == Some(JNum(p))
    requires Property(b.summary, "development_time_percent") == Some(JNum(q))
    requires Property(a.summary, "total_roast_seconds") == Some(JNum(x))
    requires Property(b.summary, "total_roast_seconds") == Some(JNum(y))
    ensures DevelopmentPercents([a, b]) == [Fin(p), Fin(q)] && TotalTimes([a, b]) == [Fin(x), Fin(y)]
  {
    var pair := [a, b];
    FiguresOf(pair, 0, p);
    FiguresOf(pair, 1, q);
    FiguresOf(pair, 0, x);
    FiguresOf(pair, 1, y);
  }

  lemma SummaryRowFigures(output: SeedOutput, bundles: seq<Bundle>, exports: seq<ParsedExport>, nowMs: int,
                          digest: string -> string, g: nat)
    requires Generated(output, bundles, exports, nowMs, digest) && g < GROUP_COUNT
    ensures |output.cloudRoasts| == ROAST_COUNT && |output.referenceRoastSummaries| == GROUP_COUNT
    ensures var s, pair := output.referenceRoastSummaries[g],
            [output.cloudRoasts[2 * g], output.cloudRoasts[2 * g + 1]];
            s.developmentPercentAvg == Mean(DevelopmentPercents(pair)) && s.totalTimeAvgS == Mean(TotalTimes(pair))
  {
    hide BundleFrom, ContributingRoasts, ReviewsOf, Mean, Scores, DevelopmentPercents, FirstCrackTimes, TotalTimes,
      SeedRelations.RoastIds;
    GroupMembers(output, bundles, exports, nowMs, digest, g);
    assert output.cloudRoasts[2 * g..2 * g + 2] == [output.cloudRoasts[2 * g], output.cloudRoasts[2 * g + 1]];
  }

  /** A group's averages are those of the two exports its roasts come from. */
  lemma GroupAverages(output: SeedOutput, bundles: seq<Bundle>, exports: seq<ParsedExport>, nowMs: int,
                      digest: string -> string, g: nat)
    requires Generated(output, bundles, exports, nowMs, digest) && g < GROUP_COUNT
    ensures |output.referenceRoastSummaries| == GROUP_COUNT && exports != []
    ensures var s := output.referenceRoastSummaries[g];
            var a, b := SourceOf(exports, 2 * g).summary, SourceOf(exports, 2 * g + 1).summary;
            && s.developmentPercentAvg.Some? && s.developmentPercentAvg.value.Fin?
            && s.developmentPercentAvg.value.value * 2.0 == a.developmentTimePercent + b.developmentTimePercent
            && s.totalTimeAvgS.Some? && s.totalTimeAvgS.value.Fin?
            && s.totalTimeAvgS.value.value * 2.0 == a.totalRoastSeconds + b.totalRoastSeconds
  {
    hide Generated, Mean, DevelopmentPercents, TotalTimes, EventFollows, MetricsFollow, ModelFollows;
    SummaryRowFigures(output, bundles, exports, nowMs, digest, g);
    SummaryTraced(output, bundles, exports, nowMs, digest, 2 * g);
    SummaryTraced(output, bundles, exports, nowMs, digest, 2 * g + 1);
    BundleAt(output, bundles, exports, nowMs, digest, 0);
    var a, b := SourceOf(exports, 2 * g).summary, SourceOf(exports, 2 * g + 1).summary;
    var pair := [output.cloudRoasts[2 * g], output.cloudRoasts[2 * g + 1]];
    PairFigures(pair[0], pair[1], a.developmentTimePercent, b.developmentTimePercent, a.totalRoastSeconds,
                b.totalRoastSeconds);
    MeanOfTwo(DevelopmentPercents(pair), a.developmentTimePercent, b.developmentTimePercent);
    MeanOfTwo(TotalTimes(pair), a.totalRoastSeconds, b.totalRoastSeconds);
  }
}

/** Splitting a roast curve into drawable runs: two independent loops against one declarative definition. */
module CurveSegments {
  import opened Wrappers
  import opened Sequences
  import opened SeedTypes

  datatype Sample = Sample(elapsedS: Option<Num>, beanTempC: Option<Num>, envTempC: Option<Num>,
                           heatPercent: Option<Num>, fanPercent: Option<Num>, rorCPerMin: Option<Num>)

  datatype SeriesKey = Bean | Env | Heat | Fan | Rate

  datatype Point = Point(x: real, y: real)

  function Series(s: Sample, key: SeriesKey): Option<Num> {
    match key
    case Bean => s.beanTempC
    case Env => s.envTempC
    case Heat => s.heatPercent
    case Fan => s.fanPercent
    case Rate => s.rorCPerMin
  }

  predicate IsFinite(v: Option<Num>) {
    v.Some? && v.value.Fin?
  }

  predicate Plottable(s: Sample, key: SeriesKey) {
    IsFinite(s.elapsedS) && IsFinite(Series(s, key))
  }

  function PointOf(s: Sample, key: SeriesKey): Point
    requires Plottable(s, key)
  {
    Point(s.elapsedS.value.value, Series(s, key).value.value)
  }

  // ----- The declarative definition

  /** Samples `start` up to but excluding `end`. */
  datatype Span = Span(start: nat, end: nat)

  /** A run of plottable samples that can be extended on neither side. */
  predicate MaximalRun(curve: seq<Sample>, key: SeriesKey, s: Span) {
    && s.start < s.end <= |curve|
    && (forall i :: s.start <= i < s.end ==> Plottable(curve[i], key))
    && (s.start > 0 ==> !Plottable(curve[s.start - 1], key))
    && (s.end < |curve| ==> !Plottable(curve[s.end], key))
  }

  function PointsOf(curve: seq<Sample>, key: SeriesKey, s: Span): seq<Point>
    requires s.start <= s.end <= |curve| && forall i :: s.start <= i < s.end ==> Plottable(curve[i], key)
  {
    seq(s.end - s.start, i requires 0 <= i < s.end - s.start => PointOf(curve[s.start + i], key))
  }

  /** Every maximal run and nothing else, from left to right. */
  ghost predicate AllRuns(curve: seq<Sample>, key: SeriesKey, spans: seq<Span>) {
    && (forall s :: s in spans <==> MaximalRun(curve, key, s))
    && (forall i, j :: 0 <= i < j < |spans| ==> spans[i].end < spans[j].start)
  }

  // ----- The page's loop

  /** Finished segments, and the one being collected. */
  datatype Scan = Scan(segments: seq<seq<Point>>, current: seq<Point>)

  function ScanUpTo(curve: seq<Sample>, key: SeriesKey, n: nat): Scan
    requires n <= |curve|
  {
    if n == 0 then Scan([], []) else
      var before := ScanUpTo(curve, key, n - 1);
      if Plottable(curve[n - 1], key) then Scan(before.segments, before.current + [PointOf(curve[n - 1], key)])
      else if before.current != [] then Scan(before.segments + [before.current], [])
      else before
  }

  function Segments(curve: seq<Sample>, key: SeriesKey): seq<seq<Point>> {
    var scan := ScanUpTo(curve, key, |curve|);
    if scan.current != [] then scan.segments + [scan.current] else scan.segments
  }

  method CollectSegments(curve: seq<Sample>, key: SeriesKey) returns (segments: seq<seq<Point>>)
    ensures segments == Segments(curve, key)
  {
    segments := [];
    var current: seq<Point> := [];
    for i := 0 to |curve|
      invariant Scan(segments, current) == ScanUpTo(curve, key, i)
    {
      var value := Series(curve[i], key);
      if IsFinite(curve[i].elapsedS) && IsFinite(value) {
        current := current + [Point(curve[i].elapsedS.value.value, value.value.value)];
      } else if |current| > 0 {
        segments := segments + [current];
        current := [];
      }
    }
    if |current| > 0 { segments := segments + [current]; }
  }

  predicate Ordered(spans: seq<Span>) {
    forall i, j :: 0 <= i < j < |spans| ==> spans[i].end < spans[j].start
  }

  predicate AllMaximal(curve: seq<Sample>, key: SeriesKey, spans: seq<Span>) {
    forall i :: 0 <= i < |spans| ==> MaximalRun(curve, key, spans[i])
  }

  predicate Within(spans: seq<Span>, i: nat) {
    exists k :: 0 <= k < |spans| && spans[k].start <= i < spans[k].end
  }

  /** Every plottable sample among the first `limit` lies in one of the spans. */
  predicate Covered(curve: seq<Sample>, key: SeriesKey, limit: nat, spans: seq<Span>)
    requires limit <= |curve|
  {
    forall i :: 0 <= i < limit && Plottable(curve[i], key) ==> Within(spans, i)
  }

  predicate PointsMatch(curve: seq<Sample>, key: SeriesKey, spans: seq<Span>, segments: seq<seq<Point>>)
    requires AllMaximal(curve, key, spans)
  {
    |spans| == |segments| && forall i :: 0 <= i < |spans| ==> segments[i] == PointsOf(curve, key, spans[i])
  }

  predicate EndBefore(spans: seq<Span>, limit: int) {
    forall i :: 0 <= i < |spans| ==> spans[i].end < limit
  }

  /** What the scan of a prefix knows: the closed runs, and the open one ending at `n`. */
  ghost predicate ScanRuns(curve: seq<Sample>, key: SeriesKey, n: nat, spans: seq<Span>)
    requires n <= |curve|
  {
    var scan := ScanUpTo(curve, key, n);
    && AllMaximal(curve, key, spans) && Ordered(spans) && PointsMatch(curve, key, spans, scan.segments)
    && |scan.current| <= n && OpenRun(curve, key, n, scan.current)
    && EndBefore(spans, if scan.current == [] then n else n - |scan.current|)
    && Covered(curve, key, n - |scan.current|, spans)
  }

  predicate OpenRun(curve: seq<Sample>, key: SeriesKey, n: nat, current: seq<Point>)
    requires |current| <= n <= |curve|
  {
    var start := n - |current|;
    && (forall i :: start <= i < n ==> Plottable(curve[i], key))
    && current == PointsOf(curve, key, Span(start, n))
    && (start > 0 ==> !Plottable(curve[start - 1], key))
  }

  lemma OpenExtends(curve: seq<Sample>, key: SeriesKey, n: nat, current: seq<Point>)
    requires |current| <= n < |curve| && OpenRun(curve, key, n, current) && Plottable(curve[n], key)
    ensures OpenRun(curve, key, n + 1, current + [PointOf(curve[n], key)])
  {
    hide Plottable, PointOf;
  }

  lemma OpenCloses(curve: seq<Sample>, key: SeriesKey, n: nat, current: seq<Point>)
    requires 0 < |current| <= n < |curve| && OpenRun(curve, key, n, current) && !Plottable(curve[n], key)
    ensures MaximalRun(curve, key, Span(n - |current|, n)) && current == PointsOf(curve, key, Span(n - |current|, n))
  {
    hide Plottable, PointOf;
  }

  lemma EmptyScan(curve: seq<Sample>, key: SeriesKey)
    ensures ScanRuns(curve, key, 0, [])
  {
    hide Plottable, PointOf;
  }

  lemma EndsEarlier(spans: seq<Span>, current: seq<Point>, n: nat)
    requires n > 0 && EndBefore(spans, if current == [] then n - 1 else n - 1 - |current|)
    ensures EndBefore(spans, n - 1 - |current|)
  {
  }

  lemma {:induction false} ScanFindsRuns(curve: seq<Sample>, key: SeriesKey, n: nat) returns (spans: seq<Span>)
    requires n <= |curve|
    ensures ScanRuns(curve, key, n, spans)
  {
    hide Plottable, PointOf, PointsOf, AllMaximal, Ordered, PointsMatch, Covered, OpenRun, EndBefore;
    if n == 0 {
      spans := [];
      EmptyScan(curve, key);
    } else {
      var before := ScanUpTo(curve, key, n - 1);
      spans := ScanFindsRuns(curve, key, n - 1);
      if Plottable(curve[n - 1], key) {
        OpenExtends(curve, key, n - 1, before.current);
        EndsEarlier(spans, before.current, n);
      } else if before.current != [] {
        CloseRun(curve, key, n, spans);
        spans := spans + [Span(n - 1 - |before.current|, n - 1)];
      } else {
        GapAfterGap(curve, key, n, spans);
      }
    }
  }

  lemma CoverSpan(curve: seq<Sample>, key: SeriesKey, spans: seq<Span>, last: Span, limit: nat)
    requires last.start <= last.end <= limit <= |curve| && Covered(curve, key, last.start, spans)
    requires forall i :: last.end <= i < limit ==> !Plottable(curve[i], key)
    ensures Covered(curve, key, limit, spans + [last])
  {
    hide Plottable;
    var all := spans + [last];
    forall i | 0 <= i < limit && Plottable(curve[i], key) ensures Within(all, i) {
      if i < last.start {
        var k :| 0 <= k < |spans| && spans[k].start <= i < spans[k].end;
        assert all[k] == spans[k];
      } else {
        assert all[|spans|] == last;
      }
    }
  }

  lemma AddSpan(curve: seq<Sample>, key: SeriesKey, spans: seq<Span>, last: Span)
    requires AllMaximal(curve, key, spans) && Ordered(spans) && MaximalRun(curve, key, last)
             && EndBefore(spans, last.start)
    ensures AllMaximal(curve, key, spans + [last]) && Ordered(spans + [last])
  {
    hide MaximalRun;
  }

  lemma AddPoints(curve: seq<Sample>, key: SeriesKey, spans: seq<Span>, segments: seq<seq<Point>>, last: Span)
    requires AllMaximal(curve, key, spans) && MaximalRun(curve, key, last) && PointsMatch(curve, key, spans, segments)
    ensures AllMaximal(curve, key, spans + [last])
    ensures PointsMatch(curve, key, spans + [last], segments + [PointsOf(curve, key, last)])
  {
    hide Plottable, PointsOf;
  }

  lemma CloseRun(curve: seq<Sample>, key: SeriesKey, n: nat, spans: seq<Span>)
    requires 0 < n <= |curve| && ScanRuns(curve, key, n - 1, spans)
    requires !Plottable(curve[n - 1], key) && ScanUpTo(curve, key, n - 1).current != []
    ensures ScanRuns(curve, key, n, spans + [Span(n - 1 - |ScanUpTo(curve, key, n - 1).current|, n - 1)])
  {
    hide Plottable, PointOf, PointsOf, OpenRun, Covered, AllMaximal, Ordered, PointsMatch, MaximalRun;
    var before := ScanUpTo(curve, key, n - 1);
    var last := Span(n - 1 - |before.current|, n - 1);
    OpenCloses(curve, key, n - 1, before.current);
    OpenNone(curve, key, n);
    AddSpan(curve, key, spans, last);
    AddPoints(curve, key, spans, before.segments, last);
    CoverSpan(curve, key, spans, last, n);
  }

  lemma OpenNone(curve: seq<Sample>, key: SeriesKey, n: nat)
    requires 0 < n <= |curve| && !Plottable(curve[n - 1], key)
    ensures OpenRun(curve, key, n, [])
  {
    hide Plottable, PointOf;
  }

  lemma GapAfterGap(curve: seq<Sample>, key: SeriesKey, n: nat, spans: seq<Span>)
    requires 0 < n <= |curve| && ScanRuns(curve, key, n - 1, spans)
    requires !Plottable(curve[n - 1], key) && ScanUpTo(curve, key, n - 1).current == []
    ensures ScanRuns(curve, key, n, spans)
  {
    hide Plottable, PointOf, PointsOf, OpenRun, AllMaximal, Ordered, PointsMatch, Within;
    OpenNone(curve, key, n);
  }

  /** Two maximal runs that share a sample are the same run. */
  lemma RunsThatMeet(curve: seq<Sample>, key: SeriesKey, a: Span, b: Span, i: nat)
    requires MaximalRun(curve, key, a) && MaximalRun(curve, key, b) && a.start <= i < a.end && b.start <= i < b.end
    ensures a == b
  {
    hide Plottable;
  }

  lemma CoverIsAllRuns(curve: seq<Sample>, key: SeriesKey, spans: seq<Span>)
    requires AllMaximal(curve, key, spans) && Ordered(spans) && Covered(curve, key, |curve|, spans)
    ensures AllRuns(curve, key, spans)
  {
    hide Plottable;
    forall s ensures s in spans <==> MaximalRun(curve, key, s) {
      if MaximalRun(curve, key, s) {
        assert Plottable(curve[s.start], key) && Within(spans, s.start);
        var k :| 0 <= k < |spans| && spans[k].start <= s.start < spans[k].end;
        RunsThatMeet(curve, key, s, spans[k], s.start);
      }
    }
  }

  lemma OpenEnds(curve: seq<Sample>, key: SeriesKey, current: seq<Point>)
    requires 0 < |current| <= |curve| && OpenRun(curve, key, |curve|, current)
    ensures MaximalRun(curve, key, Span(|curve| - |current|, |curve|))
    ensures current == PointsOf(curve, key, Span(|curve| - |current|, |curve|))
  {
    hide Plottable, PointOf;
  }

  /** The collected segments are exactly the maximal plottable runs, in order: none is split, none spans a gap. */
  lemma SegmentsAreMaximalRuns(curve: seq<Sample>, key: SeriesKey) returns (spans: seq<Span>)
    ensures AllRuns(curve, key, spans) && AllMaximal(curve, key, spans)
    ensures PointsMatch(curve, key, spans, Segments(curve, key))
  {
    hide Plottable, PointOf, PointsOf, OpenRun, Covered, AllMaximal, Ordered, PointsMatch, MaximalRun, AllRuns,
      ScanUpTo;
    var scan := ScanUpTo(curve, key, |curve|);
    spans := ScanFindsRuns(curve, key, |curve|);
    if scan.current != [] {
      var last := Span(|curve| - |scan.current|, |curve|);
      OpenEnds(curve, key, scan.current);
      AddSpan(curve, key, spans, last);
      AddPoints(curve, key, spans, scan.segments, last);
      CoverSpan(curve, key, spans, last, |curve|);
      spans := spans + [last];
    }
    CoverIsAllRuns(curve, key, spans);
  }

  // ----- Nothing is lost or reordered

  function Flatten(segments: seq<seq<Point>>): seq<Point> {
    if segments == [] then [] else Flatten(segments[..|segments| - 1]) + segments[|segments| - 1]
  }

  function PlottablePoints(curve: seq<Sample>, key: SeriesKey, n: nat): seq<Point>
    requires n <= |curve|
  {
    if n == 0 then []
    else PlottablePoints(curve, key, n - 1) + if Plottable(curve[n - 1], key) then [PointOf(curve[n - 1], key)] else []
  }

  lemma NothingToFlatten()
    ensures Flatten([]) == []
  {
  }

  lemma FlattenAppend(segments: seq<seq<Point>>, last: seq<Point>)
    ensures Flatten(segments + [last]) == Flatten(segments) + last
  {
    assert (segments + [last])[..|segments|] == segments;
  }

  lemma KeepsPointsStep(curve: seq<Sample>, key: SeriesKey, n: nat, before: Scan)
    requires 0 < n <= |curve| && before == ScanUpTo(curve, key, n - 1)
    ensures var after := ScanUpTo(curve, key, n);
            Flatten(after.segments) + after.current
            == Flatten(before.segments) + before.current
               + if Plottable(curve[n - 1], key) then [PointOf(curve[n - 1], key)] else []
  {
    hide Plottable, PointOf, Flatten;
    FlattenAppend(before.segments, before.current);
  }

  lemma {:induction false} ScanKeepsPoints(curve: seq<Sample>, key: SeriesKey, n: nat)
    requires n <= |curve|
    ensures Flatten(ScanUpTo(curve, key, n).segments) + ScanUpTo(curve, key, n).current
            == PlottablePoints(curve, key, n)
  {
    hide Plottable, PointOf, Flatten;
    if n > 0 {
      var before := ScanUpTo(curve, key, n - 1);
      ScanKeepsPoints(curve, key, n - 1);
      KeepsPointsStep(curve, key, n, before);
    } else {
      NothingToFlatten();
    }
  }

  /** The segments put end to end are the plottable samples in curve order. */
  lemma SegmentsKeepPoints(curve: seq<Sample>, key: SeriesKey)
    ensures Flatten(Segments(curve, key)) == PlottablePoints(curve, key, |curve|)
  {
    hide ScanUpTo, PlottablePoints;
    var scan := ScanUpTo(curve, key, |curve|);
    ScanKeepsPoints(curve, key, |curve|);
    FlattenAppend(scan.segments, scan.current);
    if scan.current == [] { assert Flatten(scan.segments) + [] == Flatten(scan.segments); }
  }

  // ----- The image's loop

  predicate Drawable(segment: seq<Point>) {
    |segment| >= 2
  }

  function DrawScanUpTo(curve: seq<Sample>, n: nat): Scan
    requires n <= |curve|
  {
    if n == 0 then Scan([], []) else
      var before := DrawScanUpTo(curve, n - 1);
      if Plottable(curve[n - 1], Bean) then Scan(before.segments, before.current + [PointOf(curve[n - 1], Bean)])
      else Scan(if |before.current| >= 2 then before.segments + [before.current] else before.segments, [])
  }

  function DrawableSegments(curve: seq<Sample>): seq<seq<Point>> {
    var scan := DrawScanUpTo(curve, |curve|);
    if |scan.current| >= 2 then scan.segments + [scan.current] else scan.segments
  }

  method DrawableCurveSegments(curve: Option<seq<Sample>>) returns (segments: seq<seq<Point>>)
    ensures segments == DrawableSegments(curve.GetOr([]))
  {
    segments := [];
    var current: seq<Point> := [];
    var samples := curve.GetOr([]);
    for i := 0 to |samples|
      invariant Scan(segments, current) == DrawScanUpTo(samples, i)
    {
      var s := samples[i];
      if s.elapsedS.Some? && s.elapsedS.value.Fin? && s.beanTempC.Some? && s.beanTempC.value.Fin? {
        current := current + [Point(s.elapsedS.value.value, s.beanTempC.value.value)];
      } else {
        if |current| >= 2 { segments := segments + [current]; }
        current := [];
      }
    }
    if |current| >= 2 { segments := segments + [current]; }
  }

  lemma FilterAppend(segments: seq<seq<Point>>, last: seq<Point>)
    ensures Filter(Drawable, segments + [last]) == Filter(Drawable, segments) + if Drawable(last) then [last] else []
  {
    assert (segments + [last])[..|segments|] == segments;
  }

  lemma {:induction false} ScansAgree(curve: seq<Sample>, n: nat)
    requires n <= |curve|
    ensures DrawScanUpTo(curve, n).current == ScanUpTo(curve, Bean, n).current
    ensures DrawScanUpTo(curve, n).segments == Filter(Drawable, ScanUpTo(curve, Bean, n).segments)
  {
    hide Plottable, PointOf;
    if n > 0 {
      var before := ScanUpTo(curve, Bean, n - 1);
      ScansAgree(curve, n - 1);
      FilterAppend(before.segments, before.current);
    }
  }

  /** The social image draws exactly the page's bean segments of two points or more. */
  lemma ImageMatchesPage(curve: seq<Sample>)
    ensures DrawableSegments(curve) == Filter(Drawable, Segments(curve, Bean))
  {
    hide ScanUpTo, DrawScanUpTo;
    var scan := ScanUpTo(curve, Bean, |curve|);
    ScansAgree(curve, |curve|);
    FilterAppend(scan.segments, scan.current);
  }
}

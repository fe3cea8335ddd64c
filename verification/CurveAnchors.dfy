/** What the drawing of a curve computes, apart from its own formulas: proportions, nearest hundredths, vertices. */
module CurveAnchors {
  import opened Wrappers
  import opened Sequences
  import opened SeedTypes
  import opened CurveSegments
  import opened CurvePath

  // ----- Proportions

  lemma RatioDifference(a: real, b: real, d: Interval)
    requires d.min != d.max
    ensures (Ratio(b, d) - Ratio(a, d)) * (d.max - d.min) == b - a
  {
    var width := d.max - d.min;
    assert (b - d.min) / width * width == b - d.min;
    assert (a - d.min) / width * width == a - d.min;
  }

  lemma Rescaled(r: real, width: real, difference: real, range: real)
    requires r * width == difference
    ensures r * range * width == difference * range
  {
  }

  /** Distances are drawn in proportion: rightwards for elapsed time, upwards for values. */
  lemma ScalesProportionally(a: real, b: real, d: Interval, range: Interval)
    requires d.min != d.max
    ensures (ScaleX(b, d, range) - ScaleX(a, d, range)) * (d.max - d.min) == (b - a) * (range.max - range.min)
    ensures (ScaleY(b, d, range) - ScaleY(a, d, range)) * (d.max - d.min) == (b - a) * (range.max - range.min)
  {
    hide Ratio;
    RatioDifference(a, b, d);
    var r, span := Ratio(b, d) - Ratio(a, d), range.max - range.min;
    assert ScaleX(b, d, range) - ScaleX(a, d, range) == r * span;
    assert ScaleY(b, d, range) - ScaleY(a, d, range) == r * span;
    Rescaled(r, d.max - d.min, b - a, span);
  }

  /** A domain of one value is drawn half way between the edges. */
  lemma OneValueHalfWay(value: real, d: Interval, range: Interval)
    requires d.min == d.max
    ensures ScaleX(value, d, range) - range.min == range.max - ScaleX(value, d, range)
    ensures ScaleY(value, d, range) - range.min == range.max - ScaleY(value, d, range)
  {
  }

  // ----- Rounding

  /** No whole number of hundredths is nearer, and of two equally near the one farther from zero is taken. */
  lemma NearestHundredth(v: real, n: int)
    ensures var h := Hundredths(v);
            var (off, other) := (h as real - v * 100.0, n as real - v * 100.0);
            && (if off < 0.0 then -off else off) <= (if other < 0.0 then -other else other)
            && ((if off < 0.0 then -off else off) == (if other < 0.0 then -other else other) ==>
                n == h || (if v < 0.0 then h < n else n < h))
  {
    var h := Hundredths(v);
    assert v < 0.0 ==> (-h) as real == -(h as real);
    assert h as real - 0.5 <= v * 100.0 <= h as real + 0.5;
    assert n < h ==> n as real <= h as real - 1.0;
    assert n > h ==> n as real >= h as real + 1.0;
  }

  // ----- The vertices of a polyline

  /** A linear polyline has the points for its vertices. */
  lemma {:induction false} LinearVertices(segment: seq<Point>, n: nat, xd: Interval, yd: Interval)
    requires 0 < n <= |segment|
    ensures |Outline(segment, n, xd, yd, false)| == n
    ensures forall i :: 0 <= i < n ==>
              Outline(segment, n, xd, yd, false)[i] == VertexAt(segment[i].x, segment[i].y, xd, yd)
  {
    hide VertexAt;
    if n > 1 { LinearVertices(segment, n - 1, xd, yd); }
  }

  /** A stepped one has a corner after each point: at the next point's time, still at the old value. */
  lemma {:induction false} StepVertices(segment: seq<Point>, n: nat, xd: Interval, yd: Interval)
    requires 0 < n <= |segment|
    ensures |Outline(segment, n, xd, yd, true)| == 2 * n - 1
    ensures forall i :: 0 <= i < n ==>
              Outline(segment, n, xd, yd, true)[2 * i] == VertexAt(segment[i].x, segment[i].y, xd, yd)
    ensures forall i :: 0 <= i < n - 1 ==>
              Outline(segment, n, xd, yd, true)[2 * i + 1] == VertexAt(segment[i + 1].x, segment[i].y, xd, yd)
  {
    hide VertexAt;
    if n > 1 { StepVertices(segment, n - 1, xd, yd); }
  }

  /** So a stepped line never slopes: after each point it is level, then upright. */
  lemma StepsAreLevelThenUpright(segment: seq<Point>, n: nat, xd: Interval, yd: Interval, i: nat)
    requires 0 < n <= |segment| && i < n - 1
    ensures var outline := Outline(segment, n, xd, yd, true);
            && |outline| == 2 * n - 1
            && outline[2 * i].y == outline[2 * i + 1].y && outline[2 * i + 1].x == outline[2 * (i + 1)].x
  {
    hide Outline, Hundredths, ScaleX, ScaleY;
    StepVertices(segment, n, xd, yd);
    var next := i + 1;
    assert Outline(segment, n, xd, yd, true)[2 * next] == VertexAt(segment[next].x, segment[next].y, xd, yd);
  }

  /** The corners of the page's plot and of the image's chart: least values at the lower left. */
  lemma PlotCorners(xd: Interval, yd: Interval)
    requires xd.min < xd.max && yd.min < yd.max
    ensures VertexAt(xd.min, yd.min, xd, yd) == Vertex(8000, 32000)
    ensures VertexAt(xd.max, yd.max, xd, yd) == Vertex(64000, 4000)
    ensures ImageVertex(Point(xd.min, yd.min), xd, yd) == Vertex(2000, 18000)
    ensures ImageVertex(Point(xd.max, yd.max), xd, yd) == Vertex(58000, 2000)
  {
    hide ScaleX, ScaleY, ImageVertex;
    ScaleEnds(xd, PLOT_X);
    ScaleEnds(yd, PLOT_Y);
    ScaleEnds(xd, IMAGE_X);
    ScaleEnds(yd, IMAGE_Y);
    ImageVertexScales(Point(xd.min, yd.min), xd, yd);
    ImageVertexScales(Point(xd.max, yd.max), xd, yd);
  }

  // ----- What the domains extend over

  /** The horizontal domain is taken over every finite elapsed time, plottable or not. */
  lemma {:induction false} ElapsedValuesExactly(curve: seq<Sample>, n: nat, v: real)
    requires n <= |curve|
    ensures v in ElapsedValues(curve, n) <==> exists i :: 0 <= i < n && curve[i].elapsedS == Some(Fin(v))
  {
    if n > 0 { ElapsedValuesExactly(curve, n - 1, v); }
  }

  /** A value of a segment that is drawn. */
  predicate Drawn(segment: seq<Point>, v: real) {
    |segment| >= 2 && exists i :: 0 <= i < |segment| && segment[i].y == v
  }

  lemma YsExactly(segment: seq<Point>, v: real)
    ensures v in Ys(segment) <==> exists i :: 0 <= i < |segment| && segment[i].y == v
  {
    if i :| 0 <= i < |segment| && segment[i].y == v { assert Ys(segment)[i] == v; }
  }

  /** The vertical ones are taken over the values of the segments that are drawn, and no others. */
  lemma {:induction false} DrawableValuesExactly(segments: seq<seq<Point>>, v: real)
    ensures v in DrawableValues(segments) <==> exists k :: 0 <= k < |segments| && Drawn(segments[k], v)
  {
    hide Drawn, Ys;
    if segments != [] {
      var init, last := segments[..|segments| - 1], segments[|segments| - 1];
      DrawableValuesExactly(init, v);
      LastDrawn(last, v);
      assert forall k :: 0 <= k < |init| ==> init[k] == segments[k];
      assert v in DrawableValues(segments) <==> v in DrawableValues(init) || Drawn(last, v);
    }
  }

  lemma LastDrawn(last: seq<Point>, v: real)
    ensures Drawn(last, v) <==> |last| >= 2 && v in Ys(last)
  {
    hide Ys;
    YsExactly(last, v);
  }

  /** Each series is drawn from its own column of the sample. */
  lemma ColumnsDrawn(t: real, bean: real, env: real, heat: real, fan: real, rate: real)
    ensures var curve := [Sample(Some(Fin(t)), Some(Fin(bean)), Some(Fin(env)), Some(Fin(heat)), Some(Fin(fan)),
                                 Some(Fin(rate)))];
            && PlottablePoints(curve, Bean, 1) == [Point(t, bean)] && PlottablePoints(curve, Env, 1) == [Point(t, env)]
            && PlottablePoints(curve, Heat, 1) == [Point(t, heat)] && PlottablePoints(curve, Fan, 1) == [Point(t, fan)]
            && PlottablePoints(curve, Rate, 1) == [Point(t, rate)]
  {
    var s := Sample(Some(Fin(t)), Some(Fin(bean)), Some(Fin(env)), Some(Fin(heat)), Some(Fin(fan)), Some(Fin(rate)));
    forall key: SeriesKey ensures PlottablePoints([s], key, 1) == if Plottable(s, key) then [PointOf(s, key)] else [] {
      assert PlottablePoints([s], key, 0) == [];
    }
  }
}

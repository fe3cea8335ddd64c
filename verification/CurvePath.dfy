/** Scaling into the plot rectangle, and the path commands that draw the segments. */
module CurvePath {
  import opened Wrappers
  import opened Sequences
  import opened SeedTypes
  import opened CurveSegments

  datatype Interval = Interval(min: real, max: real)

  const PLOT_X := Interval(80.0, 640.0)
  /** The vertical range runs downwards: its minimum is the lower edge. */
  const PLOT_Y := Interval(320.0, 40.0)
  const PERCENT_DOMAIN := Interval(0.0, 100.0)

  function Midpoint(a: real, b: real): real {
    a / 2.0 + b / 2.0
  }

  function Ratio(value: real, d: Interval): real
    requires d.min != d.max
  {
    (value - d.min) / (d.max - d.min)
  }

  function ScaleX(value: real, d: Interval, range: Interval): real {
    if d.min == d.max then Midpoint(range.min, range.max) else range.min + Ratio(value, d) * (range.max - range.min)
  }

  function ScaleY(value: real, d: Interval, range: Interval): real {
    if d.min == d.max then Midpoint(range.min, range.max) else range.min - Ratio(value, d) * (range.min - range.max)
  }

  lemma QuotientTimes(q: real, b: real, a: real)
    requires b > 0.0 && a == q * b
    ensures 0.0 <= a <==> 0.0 <= q
    ensures a <= b <==> q <= 1.0
  {
    if q < 0.0 { assert q * b < 0.0; }
    if q >= 0.0 { assert q * b >= 0.0; }
    if q > 1.0 { assert (q - 1.0) * b > 0.0; }
    if q <= 1.0 { assert (1.0 - q) * b >= 0.0; }
  }

  lemma RatioBounds(value: real, d: Interval)
    requires d.min < d.max
    ensures 0.0 <= Ratio(value, d) <==> d.min <= value
    ensures Ratio(value, d) <= 1.0 <==> value <= d.max
  {
    var a, b := value - d.min, d.max - d.min;
    assert a / b * b == a;
    QuotientTimes(a / b, b, a);
  }

  /** A value is drawn between the edges exactly when it lies in the domain. */
  lemma ScaleXInside(value: real, d: Interval, range: Interval)
    requires d.min < d.max && range.min < range.max
    ensures range.min <= ScaleX(value, d, range) <= range.max <==> d.min <= value <= d.max
  {
    hide Ratio;
    RatioBounds(value, d);
    QuotientTimes(Ratio(value, d), range.max - range.min, Ratio(value, d) * (range.max - range.min));
  }

  lemma ScaleYInside(value: real, d: Interval, range: Interval)
    requires d.min < d.max && range.max < range.min
    ensures range.max <= ScaleY(value, d, range) <= range.min <==> d.min <= value <= d.max
  {
    hide Ratio;
    RatioBounds(value, d);
    QuotientTimes(Ratio(value, d), range.min - range.max, Ratio(value, d) * (range.min - range.max));
  }

  /** The ends of the domain are drawn on the edges: the least value at the left, respectively at the bottom. */
  lemma ScaleEnds(d: Interval, range: Interval)
    requires d.min < d.max
    ensures ScaleX(d.min, d, range) == range.min && ScaleX(d.max, d, range) == range.max
    ensures ScaleY(d.min, d, range) == range.min && ScaleY(d.max, d, range) == range.max
  {
    var width := d.max - d.min;
    assert width / width == 1.0 && 0.0 / width == 0.0;
  }

  // ----- Domains

  function Lower(a: real, b: real): real {
    if b < a then b else a
  }

  function Upper(a: real, b: real): real {
    if b > a then b else a
  }

  /** The extent of the values, or the unit interval when there are none. */
  function DomainOf(values: seq<real>): (d: Interval)
    ensures d.min <= d.max
  {
    if values == [] then Interval(0.0, 1.0)
    else if |values| == 1 then Interval(values[0], values[0])
    else
      var rest := DomainOf(values[..|values| - 1]);
      var last := values[|values| - 1];
      Interval(Lower(rest.min, last), Upper(rest.max, last))
  }

  predicate InDomain(v: real, d: Interval) {
    d.min <= v <= d.max
  }

  /** The domain is the tightest one: it holds every value, and its ends are values. */
  lemma {:induction false} DomainTight(values: seq<real>)
    requires values != []
    ensures forall i :: 0 <= i < |values| ==> InDomain(values[i], DomainOf(values))
    ensures DomainOf(values).min in values && DomainOf(values).max in values
  {
    if |values| > 1 {
      var init, last := values[..|values| - 1], values[|values| - 1];
      DomainTight(init);
      assert values == init + [last];
      var d := DomainOf(init);
      forall i | 0 <= i < |values| ensures InDomain(values[i], DomainOf(values)) {
        if i < |init| { assert InDomain(init[i], d); }
      }
    }
  }

  // ----- Rounding to two decimals

  /** `toFixed(2)`, in hundredths; the sign is set aside before rounding. */
  function Hundredths(v: real): int {
    if v < 0.0 then -(0.5 - v * 100.0).Floor else (v * 100.0 + 0.5).Floor
  }

  lemma RoundingStaysInside(v: real, low: int, high: int)
    requires low as real <= v <= high as real
    ensures 100 * low <= Hundredths(v) <= 100 * high
  {
    assert v * 100.0 + 0.5 < (100 * high + 1) as real;
    assert v * 100.0 >= (100 * low) as real;
  }

  // ----- Path commands

  /** A vertex in hundredths of a pixel. */
  datatype Vertex = Vertex(x: int, y: int)

  datatype Command = MoveTo(to: Vertex) | LineTo(to: Vertex)

  function VertexAt(x: real, y: real, xd: Interval, yd: Interval): Vertex {
    Vertex(Hundredths(ScaleX(x, xd, PLOT_X)), Hundredths(ScaleY(y, yd, PLOT_Y)))
  }

  /** The corners drawn to reach the `i`th point of a segment. */
  function Corners(segment: seq<Point>, i: nat, xd: Interval, yd: Interval, step: bool): seq<Vertex>
    requires 0 < i < |segment|
  {
    var p := segment[i];
    if step then [VertexAt(p.x, segment[i - 1].y, xd, yd), VertexAt(p.x, p.y, xd, yd)] else [VertexAt(p.x, p.y, xd, yd)]
  }

  /** The polyline of the first `n` points. */
  function Outline(segment: seq<Point>, n: nat, xd: Interval, yd: Interval, step: bool): seq<Vertex>
    requires 0 < n <= |segment|
  {
    if n == 1 then [VertexAt(segment[0].x, segment[0].y, xd, yd)]
    else Outline(segment, n - 1, xd, yd, step) + Corners(segment, n - 1, xd, yd, step)
  }

  /** What a renderer draws: a move starts a polyline, a line extends the last one. */
  function Polylines(commands: seq<Command>): seq<seq<Vertex>> {
    if commands == [] then [] else
      var before := Polylines(commands[..|commands| - 1]);
      match commands[|commands| - 1]
      case MoveTo(v) => before + [[v]]
      case LineTo(v) => if before == [] then [[v]] else before[..|before| - 1] + [before[|before| - 1] + [v]]
  }

  lemma PolylinesMove(commands: seq<Command>, v: Vertex)
    ensures Polylines(commands + [MoveTo(v)]) == Polylines(commands) + [[v]]
  {
    assert (commands + [MoveTo(v)])[..|commands|] == commands;
  }

  lemma PolylinesLine(commands: seq<Command>, v: Vertex, done: seq<seq<Vertex>>, open: seq<Vertex>)
    requires Polylines(commands) == done + [open]
    ensures Polylines(commands + [LineTo(v)]) == done + [open + [v]]
  {
    assert (commands + [LineTo(v)])[..|commands|] == commands;
    assert (done + [open])[..|done|] == done;
  }

  function Outlines(segments: seq<seq<Point>>, xd: Interval, yd: Interval, step: bool): seq<seq<Vertex>> {
    if segments == [] then [] else
      var last := segments[|segments| - 1];
      Outlines(segments[..|segments| - 1], xd, yd, step)
      + if Drawable(last) then [Outline(last, |last|, xd, yd, step)] else []
  }

  /** The commands draw one polyline for each segment of two points or more, and nothing between them. */
  method PathFor(segments: seq<seq<Point>>, xd: Interval, yd: Interval, step: bool) returns (commands: seq<Command>)
    ensures Polylines(commands) == Outlines(segments, xd, yd, step)
    ensures Moves(commands) == |Filter(Drawable, segments)|
  {
    hide VertexAt, Moves;
    commands := [];
    for s := 0 to |segments|
      invariant Polylines(commands) == Outlines(segments[..s], xd, yd, step)
      invariant commands == [] || commands[0].MoveTo?
    {
      var segment := segments[s];
      ghost var done := Polylines(commands);
      OutlinesStep(segments, s, xd, yd, step);
      if |segment| < 2 { continue; }
      PolylinesMove(commands, VertexAt(segment[0].x, segment[0].y, xd, yd));
      commands := commands + [MoveTo(VertexAt(segment[0].x, segment[0].y, xd, yd))];
      commands := ExtendPath(commands, segment, xd, yd, step, done);
    }
    assert segments[..|segments|] == segments;
    MovesAreOutlines(commands);
    OutlineCount(segments, xd, yd, step);
  }

  method ExtendPath(commands: seq<Command>, segment: seq<Point>, xd: Interval, yd: Interval, step: bool,
                    ghost done: seq<seq<Vertex>>)
    returns (extended: seq<Command>)
    requires |segment| >= 2 && Polylines(commands) == done + [Outline(segment, 1, xd, yd, step)]
    ensures Polylines(extended) == done + [Outline(segment, |segment|, xd, yd, step)]
    ensures commands <= extended
  {
    hide VertexAt, Polylines;
    extended := commands;
    for i := 1 to |segment|
      invariant Polylines(extended) == done + [Outline(segment, i, xd, yd, step)] && commands <= extended
    {
      var previous, point := segment[i - 1], segment[i];
      ghost var open := Outline(segment, i, xd, yd, step);
      if step {
        PolylinesLine(extended, VertexAt(point.x, previous.y, xd, yd), done, open);
        extended := extended + [LineTo(VertexAt(point.x, previous.y, xd, yd))];
        PolylinesLine(extended, VertexAt(point.x, point.y, xd, yd), done,
                      open + [VertexAt(point.x, previous.y, xd, yd)]);
        assert open + [VertexAt(point.x, previous.y, xd, yd)] + [VertexAt(point.x, point.y, xd, yd)]
               == open + Corners(segment, i, xd, yd, step);
      } else {
        PolylinesLine(extended, VertexAt(point.x, point.y, xd, yd), done, open);
      }
      extended := extended + [LineTo(VertexAt(point.x, point.y, xd, yd))];
    }
  }

  lemma OutlinesStep(segments: seq<seq<Point>>, s: nat, xd: Interval, yd: Interval, step: bool)
    requires s < |segments|
    ensures Outlines(segments[..s + 1], xd, yd, step)
            == Outlines(segments[..s], xd, yd, step)
               + if Drawable(segments[s]) then [Outline(segments[s], |segments[s]|, xd, yd, step)] else []
  {
    hide Outline;
    assert segments[..s + 1][..s] == segments[..s];
  }

  /** One polyline, hence one move, for each drawable segment. */
  lemma {:induction false} OutlineCount(segments: seq<seq<Point>>, xd: Interval, yd: Interval, step: bool)
    ensures |Outlines(segments, xd, yd, step)| == |Filter(Drawable, segments)|
  {
    hide Outline, Drawable;
    if segments != [] { OutlineCount(segments[..|segments| - 1], xd, yd, step); }
  }

  function Moves(commands: seq<Command>): nat {
    if commands == [] then 0 else Moves(commands[..|commands| - 1]) + if commands[|commands| - 1].MoveTo? then 1 else 0
  }

  lemma {:induction false} MovesAreOutlines(commands: seq<Command>)
    requires commands == [] || commands[0].MoveTo?
    ensures Moves(commands) == |Polylines(commands)|
  {
    if |commands| > 1 {
      MovesAreOutlines(commands[..|commands| - 1]);
      assert commands[..|commands| - 1] != [];
    }
  }

  // ----- Everything lands inside the plot

  predicate InsidePlot(v: Vertex) {
    8000 <= v.x <= 64000 && 4000 <= v.y <= 32000
  }

  lemma VertexInside(x: real, y: real, xd: Interval, yd: Interval)
    requires InDomain(x, xd) && InDomain(y, yd)
    ensures InsidePlot(VertexAt(x, y, xd, yd))
  {
    hide Hundredths, ScaleX, ScaleY;
    ScaleXDrawn(x, xd);
    ScaleYDrawn(y, yd);
    RoundingStaysInside(ScaleX(x, xd, PLOT_X), 80, 640);
    RoundingStaysInside(ScaleY(y, yd, PLOT_Y), 40, 320);
  }

  lemma ScaleXDrawn(x: real, xd: Interval)
    requires InDomain(x, xd)
    ensures 80.0 <= ScaleX(x, xd, PLOT_X) <= 640.0
  {
    if xd.min < xd.max { ScaleXInside(x, xd, PLOT_X); }
  }

  lemma ScaleYDrawn(y: real, yd: Interval)
    requires InDomain(y, yd)
    ensures 40.0 <= ScaleY(y, yd, PLOT_Y) <= 320.0
  {
    if yd.min < yd.max { ScaleYInside(y, yd, PLOT_Y); }
  }

  predicate AllInside(outline: seq<Vertex>) {
    forall i :: 0 <= i < |outline| ==> InsidePlot(outline[i])
  }

  /** Every corner that the first `n` points can give rise to is inside. */
  predicate CornersInside(segment: seq<Point>, n: nat, xd: Interval, yd: Interval)
    requires n <= |segment|
  {
    forall i, j :: 0 <= i < n && 0 <= j < n ==> InsidePlot(VertexAt(segment[i].x, segment[j].y, xd, yd))
  }

  lemma {:induction false} OutlineInside(segment: seq<Point>, n: nat, xd: Interval, yd: Interval, step: bool)
    requires 0 < n <= |segment| && CornersInside(segment, n, xd, yd)
    ensures AllInside(Outline(segment, n, xd, yd, step))
  {
    hide VertexAt, InsidePlot;
    if n > 1 {
      OutlineInside(segment, n - 1, xd, yd, step);
    }
  }

  /** Every point of a segment is a vertex of its polyline. */
  lemma {:induction false} OutlineHas(segment: seq<Point>, n: nat, xd: Interval, yd: Interval, step: bool, i: nat)
    requires i < n <= |segment|
    ensures VertexAt(segment[i].x, segment[i].y, xd, yd) in Outline(segment, n, xd, yd, step)
  {
    hide VertexAt;
    if i < n - 1 {
      OutlineHas(segment, n - 1, xd, yd, step, i);
    } else if n > 1 {
      var corners := Corners(segment, i, xd, yd, step);
      assert corners[|corners| - 1] == VertexAt(segment[i].x, segment[i].y, xd, yd);
    }
  }

  function Xs(segment: seq<Point>): (xs: seq<real>)
    ensures |xs| == |segment|
  {
    Map((p: Point) => p.x, segment)
  }

  function Ys(segment: seq<Point>): (ys: seq<real>)
    ensures |ys| == |segment|
  {
    Map((p: Point) => p.y, segment)
  }

  /** The values of the segments that are drawn. */
  function DrawableValues(segments: seq<seq<Point>>): seq<real> {
    if segments == [] then [] else
      DrawableValues(segments[..|segments| - 1])
      + if |segments[|segments| - 1]| < 2 then [] else Ys(segments[|segments| - 1])
  }

  lemma {:induction false} DrawableValuesHold(segments: seq<seq<Point>>, k: nat, i: nat)
    requires k < |segments| && Drawable(segments[k]) && i < |segments[k]|
    ensures segments[k][i].y in DrawableValues(segments)
  {
    if k < |segments| - 1 {
      DrawableValuesHold(segments[..|segments| - 1], k, i);
    } else {
      assert Ys(segments[k])[i] in Ys(segments[k]);
    }
  }

  function ElapsedValues(curve: seq<Sample>, n: nat): seq<real>
    requires n <= |curve|
  {
    if n == 0 then [] else
      ElapsedValues(curve, n - 1)
      + if IsFinite(curve[n - 1].elapsedS) then [curve[n - 1].elapsedS.value.value] else []
  }

  lemma {:induction false} ElapsedListed(curve: seq<Sample>, n: nat, i: nat)
    requires i < n <= |curve| && IsFinite(curve[i].elapsedS)
    ensures curve[i].elapsedS.value.value in ElapsedValues(curve, n)
  {
    if i < n - 1 { ElapsedListed(curve, n - 1, i); }
  }

  function XDomain(curve: seq<Sample>): Interval {
    DomainOf(ElapsedValues(curve, |curve|))
  }

  /** Both temperature series share one domain. */
  function TemperatureDomain(curve: seq<Sample>): Interval {
    DomainOf(DrawableValues(Segments(curve, Bean)) + DrawableValues(Segments(curve, Env)))
  }

  function RateDomain(curve: seq<Sample>): Interval {
    DomainOf(DrawableValues(Segments(curve, Rate)))
  }

  function YDomain(curve: seq<Sample>, key: SeriesKey): Interval {
    match key
    case Rate => RateDomain(curve)
    case Heat => PERCENT_DOMAIN
    case Fan => PERCENT_DOMAIN
    case _ => TemperatureDomain(curve)
  }

  lemma SegmentXInDomain(curve: seq<Sample>, key: SeriesKey, k: nat, i: nat)
    requires k < |Segments(curve, key)| && i < |Segments(curve, key)[k]|
    ensures InDomain(Segments(curve, key)[k][i].x, XDomain(curve))
  {
    hide Segments, DomainOf, ElapsedValues, InDomain, AllRuns;
    var spans := SegmentsAreMaximalRuns(curve, key);
    var at := spans[k].start + i;
    assert MaximalRun(curve, key, spans[k]) && Plottable(curve[at], key);
    assert Segments(curve, key)[k] == PointsOf(curve, key, spans[k]);
    assert Segments(curve, key)[k][i] == PointOf(curve[at], key);
    ElapsedListed(curve, |curve|, at);
    ListedInDomain(ElapsedValues(curve, |curve|), Segments(curve, key)[k][i].x);
  }

  lemma ListedInDomain(values: seq<real>, v: real)
    requires v in values
    ensures InDomain(v, DomainOf(values))
  {
    hide DomainOf, InDomain;
    DomainTight(values);
  }

  lemma SegmentYInDomain(curve: seq<Sample>, key: SeriesKey, k: nat, i: nat)
    requires k < |Segments(curve, key)| && i < |Segments(curve, key)[k]| && Drawable(Segments(curve, key)[k])
    requires key != Heat && key != Fan
    ensures InDomain(Segments(curve, key)[k][i].y, YDomain(curve, key))
  {
    hide Segments, DomainOf, DrawableValues, InDomain;
    var v := Segments(curve, key)[k][i].y;
    DrawableValuesHold(Segments(curve, key), k, i);
    if key == Rate {
      ListedInDomain(DrawableValues(Segments(curve, Rate)), v);
    } else {
      ListedInDomain(DrawableValues(Segments(curve, Bean)) + DrawableValues(Segments(curve, Env)), v);
    }
  }

  predicate PercentSeries(key: SeriesKey) {
    key == Heat || key == Fan
  }

  /** Off the scale of 0 to 100 by less than rounds away: half a hundredth of a pixel. */
  predicate PercentDrawn(v: real) {
    -0.5 < 280.0 * v <= 28000.5
  }

  /** Before rounding, a percent value is drawn between the edges exactly when it is a percentage. */
  lemma PercentScaled(v: real)
    ensures ScaleY(v, PERCENT_DOMAIN, PLOT_Y) == 320.0 - 2.8 * v
    ensures 40.0 <= ScaleY(v, PERCENT_DOMAIN, PLOT_Y) <= 320.0 <==> InDomain(v, PERCENT_DOMAIN)
  {
  }

  /** After rounding, exactly when it is one up to half a hundredth of a pixel. */
  lemma PercentVertexInside(x: real, v: real, xd: Interval)
    requires InDomain(x, xd)
    ensures InsidePlot(VertexAt(x, v, xd, PERCENT_DOMAIN)) <==> PercentDrawn(v)
  {
    hide ScaleX, ScaleY;
    ScaleXDrawn(x, xd);
    RoundingStaysInside(ScaleX(x, xd, PLOT_X), 80, 640);
    PercentScaled(v);
  }

  /** For whole percentages nothing rounds away. */
  lemma WholePercentDrawn(n: int)
    ensures PercentDrawn(n as real) <==> 0 <= n <= 100
  {
    assert 280.0 * n as real == (280 * n) as real;
    assert (280 * n) as real > -0.5 <==> 280 * n >= 0;
    assert (280 * n) as real <= 28000.5 <==> 280 * n <= 28000;
  }

  predicate PercentsDrawn(segment: seq<Point>) {
    forall i :: 0 <= i < |segment| ==> PercentDrawn(segment[i].y)
  }

  lemma SegmentCornersInside(curve: seq<Sample>, key: SeriesKey, k: nat)
    requires k < |Segments(curve, key)| && Drawable(Segments(curve, key)[k])
    requires PercentSeries(key) ==> PercentsDrawn(Segments(curve, key)[k])
    ensures CornersInside(Segments(curve, key)[k], |Segments(curve, key)[k]|, XDomain(curve), YDomain(curve, key))
  {
    hide Segments, DomainOf, DrawableValues, InDomain, InsidePlot, XDomain, TemperatureDomain, RateDomain, VertexAt,
      PercentDrawn;
    var segment := Segments(curve, key)[k];
    forall i, j | 0 <= i < |segment| && 0 <= j < |segment|
      ensures InsidePlot(VertexAt(segment[i].x, segment[j].y, XDomain(curve), YDomain(curve, key)))
    {
      SegmentXInDomain(curve, key, k, i);
      if PercentSeries(key) {
        PercentVertexInside(segment[i].x, segment[j].y, XDomain(curve));
      } else {
        SegmentYInDomain(curve, key, k, j);
        VertexInside(segment[i].x, segment[j].y, XDomain(curve), YDomain(curve, key));
      }
    }
  }

  lemma PercentsDrawnInside(curve: seq<Sample>, key: SeriesKey, step: bool, k: nat)
    requires PercentSeries(key) && k < |Segments(curve, key)| && Drawable(Segments(curve, key)[k])
    requires var segment := Segments(curve, key)[k];
             AllInside(Outline(segment, |segment|, XDomain(curve), YDomain(curve, key), step))
    ensures PercentsDrawn(Segments(curve, key)[k])
  {
    hide Segments, InDomain, InsidePlot, XDomain, VertexAt, PercentDrawn, Outline;
    var segment := Segments(curve, key)[k];
    forall i | 0 <= i < |segment| ensures PercentDrawn(segment[i].y) {
      OutlineHas(segment, |segment|, XDomain(curve), PERCENT_DOMAIN, step, i);
      SegmentXInDomain(curve, key, k, i);
      PercentVertexInside(segment[i].x, segment[i].y, XDomain(curve));
    }
  }

  /** A temperature or rate path is drawn inside the plot; a percent path exactly when its values are percentages. */
  lemma PathInsidePlot(curve: seq<Sample>, key: SeriesKey, step: bool, k: nat)
    requires k < |Segments(curve, key)| && Drawable(Segments(curve, key)[k])
    ensures var segment := Segments(curve, key)[k];
            AllInside(Outline(segment, |segment|, XDomain(curve), YDomain(curve, key), step))
            <==> (PercentSeries(key) ==> PercentsDrawn(segment))
  {
    hide Segments, AllInside, XDomain, YDomain, CornersInside, PercentsDrawn, Outline;
    var segment := Segments(curve, key)[k];
    if PercentSeries(key) ==> PercentsDrawn(segment) {
      SegmentCornersInside(curve, key, k);
      OutlineInside(segment, |segment|, XDomain(curve), YDomain(curve, key), step);
    }
    if PercentSeries(key) && AllInside(Outline(segment, |segment|, XDomain(curve), YDomain(curve, key), step)) {
      PercentsDrawnInside(curve, key, step, k);
    }
  }

  // ----- The image

  const IMAGE_X := Interval(20.0, 580.0)
  const IMAGE_Y := Interval(180.0, 20.0)

  /** A point of the social image's polyline, in hundredths. */
  function ImageVertex(p: Point, xd: Interval, yd: Interval): Vertex {
    var x := if xd.min == xd.max then 300.0 else 20.0 + Ratio(p.x, xd) * 560.0;
    var y := if yd.min == yd.max then 100.0 else 180.0 - Ratio(p.y, yd) * 160.0;
    Vertex(Hundredths(x), Hundredths(y))
  }

  /** The image scales as the page does, into its own rectangle. */
  lemma ImageVertexScales(p: Point, xd: Interval, yd: Interval)
    ensures ImageVertex(p, xd, yd) == Vertex(Hundredths(ScaleX(p.x, xd, IMAGE_X)), Hundredths(ScaleY(p.y, yd, IMAGE_Y)))
  {
    hide Hundredths, Ratio;
  }

  lemma ImageVertexInside(p: Point, xd: Interval, yd: Interval)
    requires InDomain(p.x, xd) && InDomain(p.y, yd)
    ensures 2000 <= ImageVertex(p, xd, yd).x <= 58000 && 2000 <= ImageVertex(p, xd, yd).y <= 18000
  {
    hide Hundredths, ScaleX, ScaleY, ImageVertex;
    ImageVertexScales(p, xd, yd);
    ImageScaled(p, xd, yd);
    RoundingStaysInside(ScaleX(p.x, xd, IMAGE_X), 20, 580);
    RoundingStaysInside(ScaleY(p.y, yd, IMAGE_Y), 20, 180);
  }

  lemma ImageScaled(p: Point, xd: Interval, yd: Interval)
    requires InDomain(p.x, xd) && InDomain(p.y, yd)
    ensures 20.0 <= ScaleX(p.x, xd, IMAGE_X) <= 580.0 && 20.0 <= ScaleY(p.y, yd, IMAGE_Y) <= 180.0
  {
    if xd.min < xd.max { ScaleXInside(p.x, xd, IMAGE_X); }
    if yd.min < yd.max { ScaleYInside(p.y, yd, IMAGE_Y); }
  }

  lemma {:induction false} FlattenHas(segments: seq<seq<Point>>, k: nat, i: nat)
    requires k < |segments| && i < |segments[k]|
    ensures segments[k][i] in Flatten(segments)
  {
    if k < |segments| - 1 { FlattenHas(segments[..|segments| - 1], k, i); }
  }

  /** Every point that the image draws lies inside its chart, on the one domain of all its segments. */
  lemma ImageInsideChart(curve: seq<Sample>, k: nat, i: nat)
    requires k < |DrawableSegments(curve)| && i < |DrawableSegments(curve)[k]|
    ensures var points := Flatten(DrawableSegments(curve));
            var v := ImageVertex(DrawableSegments(curve)[k][i], DomainOf(Xs(points)), DomainOf(Ys(points)));
            2000 <= v.x <= 58000 && 2000 <= v.y <= 18000
  {
    hide DomainOf, ImageVertex, InDomain, DrawableSegments, Flatten;
    var points, p := Flatten(DrawableSegments(curve)), DrawableSegments(curve)[k][i];
    FlattenHas(DrawableSegments(curve), k, i);
    var at :| 0 <= at < |points| && points[at] == p;
    assert Xs(points)[at] in Xs(points) && Ys(points)[at] in Ys(points);
    ListedInDomain(Xs(points), p.x);
    ListedInDomain(Ys(points), p.y);
    ImageVertexInside(p, DomainOf(Xs(points)), DomainOf(Ys(points)));
  }
}

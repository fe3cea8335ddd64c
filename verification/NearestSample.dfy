/** The streaming nearest-sample search of the web application, and how far it is from the true minimum. */
module NearestSample {
  import opened Wrappers
  import opened IsoTime
  import opened SeedTypes

  datatype CurveSample = CurveSample(elapsedS: Option<Num>, beanTempC: Option<real>)

  /** The best sample so far. */
  datatype Nearest = Nearest(elapsed: real, temperature: Option<real>, distance: real)

  const EPSILON: real := 0.000000001

  function Abs(x: real): real {
    if x < 0.0 then -x else x
  }

  predicate Usable(s: CurveSample) {
    s.elapsedS.Some? && s.elapsedS.value.Fin?
  }

  function Elapsed(s: CurveSample): real
    requires Usable(s)
  {
    s.elapsedS.value.value
  }

  function Distance(s: CurveSample, event: real): (d: real)
    requires Usable(s)
    ensures d >= 0.0 && (d == Elapsed(s) - event || d == event - Elapsed(s))
  {
    Abs(Elapsed(s) - event)
  }

  /** The comparison made for every usable sample. */
  predicate Replaces(s: CurveSample, best: Option<Nearest>, event: real)
    requires Usable(s)
  {
    var d := Distance(s, event);
    || best.None?
    || d < best.value.distance - EPSILON
    || (Abs(d - best.value.distance) <= EPSILON && Elapsed(s) < best.value.elapsed)
  }

  function AsNearest(s: CurveSample, event: real): Nearest
    requires Usable(s)
  {
    Nearest(Elapsed(s), s.beanTempC, Distance(s, event))
  }

  /** What one pass over the first `n` samples keeps. */
  function Streamed(curve: seq<CurveSample>, n: nat, event: real): Option<Nearest>
    requires n <= |curve|
  {
    if n == 0 then None else
      var best := Streamed(curve, n - 1, event);
      var s := curve[n - 1];
      if Usable(s) && Replaces(s, best, event) then Some(AsNearest(s, event)) else best
  }

  function EventElapsed(eventAt: string, startedAt: string): Option<real> {
    var event, start := DateParse(eventAt), DateParse(startedAt);
    if event.Some? && start.Some? then Some((event.value - start.value) as real / 1000.0) else None
  }

  /** From two printed clock readings: the seconds from the start to the event, negative before it. */
  lemma ElapsedFromStart(eventMs: int, startMs: int)
    requires FourDigitYear(eventMs / 1000) && FourDigitYear(startMs / 1000)
    ensures EventElapsed(ToIsoString(eventMs), ToIsoString(startMs)) == Some((eventMs - startMs) as real / 1000.0)
  {
    hide ToIsoString, DateParse, FourDigitYear;
    ToIsoStringRoundTrip(eventMs);
    ToIsoStringRoundTrip(startMs);
  }

  /** A curve's only usable sample is the one whose temperature is returned. */
  lemma OnlySample(s: CurveSample, event: real)
    requires Usable(s)
    ensures TemperatureOf(Streamed([s], 1, event)) == s.beanTempC
  {
    assert Streamed([s], 0, event) == None;
  }

  function TemperatureOf(best: Option<Nearest>): Option<real> {
    if best.Some? then best.value.temperature else None
  }

  method NearestSampleTempC(curve: Option<seq<CurveSample>>, eventAt: string, startedAt: string)
    returns (temperature: Option<real>)
    ensures temperature == if curve.None? || EventElapsed(eventAt, startedAt).None? then None
                           else TemperatureOf(Streamed(curve.value, |curve.value|,
                                                       EventElapsed(eventAt, startedAt).value))
  {
    hide DateParse;
    if curve.None? || |curve.value| == 0 { return None; }
    var samples := curve.value;
    var eventElapsed := EventElapsed(eventAt, startedAt);
    if eventElapsed.None? { return None; }
    var event := eventElapsed.value;
    var nearest: Option<Nearest> := None;
    for i := 0 to |samples|
      invariant nearest == Streamed(samples, i, event)
    {
      var sample := samples[i];
      if !Usable(sample) { continue; }
      var distance := Abs(sample.elapsedS.value.value - event);
      if nearest.None? || distance < nearest.value.distance - EPSILON
         || (Abs(distance - nearest.value.distance) <= EPSILON && sample.elapsedS.value.value < nearest.value.elapsed) {
        nearest := Some(Nearest(sample.elapsedS.value.value, sample.beanTempC, distance));
      }
    }
    return TemperatureOf(nearest);
  }

  // ----- Drift

  function UsableCount(curve: seq<CurveSample>, n: nat): nat
    requires n <= |curve|
  {
    if n == 0 then 0 else UsableCount(curve, n - 1) + if Usable(curve[n - 1]) then 1 else 0
  }

  /** Something is kept exactly when a usable sample was seen, and it is one of the samples seen. */
  lemma {:induction false} StreamedIsSample(curve: seq<CurveSample>, n: nat, event: real)
    requires n <= |curve|
    ensures Streamed(curve, n, event).Some? <==> UsableCount(curve, n) > 0
    ensures Streamed(curve, n, event).Some? ==>
              exists k :: 0 <= k < n && Usable(curve[k])
                && Streamed(curve, n, event).value == AsNearest(curve[k], event)
  {
    if n > 0 { StreamedIsSample(curve, n - 1, event); }
  }

  /** The kept distance is within (u - 1) tolerances of every distance, u being the number of usable samples seen. */
  lemma {:induction false} DriftBounded(curve: seq<CurveSample>, n: nat, event: real, k: nat)
    requires k < n <= |curve| && Usable(curve[k])
    ensures Streamed(curve, n, event).Some?
    ensures Streamed(curve, n, event).value.distance <= Distance(curve[k], event)
            + (UsableCount(curve, n) - 1) as real * EPSILON
  {
    if k < n - 1 {
      DriftBounded(curve, n - 1, event, k);
      var u: int := UsableCount(curve, n - 1);
      assert u as real * EPSILON == (u - 1) as real * EPSILON + EPSILON;
    } else if UsableCount(curve, k) > 0 {
      StreamedIsSample(curve, k, event);
      UsableMonotone(curve, k);
    } else {
      StreamedIsSample(curve, k, event);
    }
  }

  lemma UsableMonotone(curve: seq<CurveSample>, k: nat)
    requires k < |curve| && Usable(curve[k]) && UsableCount(curve, k) > 0
    ensures (UsableCount(curve, k + 1) - 1) as real * EPSILON >= EPSILON
  {
  }

  /** Samples before the event, each one tolerance farther away than the last. */
  function Receding(n: nat): (curve: seq<CurveSample>)
    ensures |curve| == n
  {
    seq(n, i => CurveSample(Some(Fin(-(i as real * EPSILON))), Some(i as real)))
  }

  /** The bound is reached: on this curve the search ends at the farthest sample, (n - 1) tolerances off. */
  lemma {:induction false} DriftReached(n: nat, m: nat)
    requires 0 < m <= n
    ensures Streamed(Receding(n), m, 0.0)
            == Some(Nearest(-((m - 1) as real * EPSILON), Some((m - 1) as real), (m - 1) as real * EPSILON))
    ensures UsableCount(Receding(n), m) == m && Distance(Receding(n)[0], 0.0) == 0.0
  {
    if m > 1 {
      DriftReached(n, m - 1);
      assert (m - 1) as real * EPSILON == (m - 2) as real * EPSILON + EPSILON;
    } else {
      assert Streamed(Receding(n), 0, 0.0) == None;
    }
  }
}

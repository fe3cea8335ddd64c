/** Exactly when the streaming search returns a nearest sample, whatever order the samples come in. */
module NearestExact {
  import opened Wrappers
  import opened SeedTypes
  import opened NearestSample

  // ----- The condition

  /** A usable sample of the curve at the least distance. */
  predicate IsNearest(curve: seq<CurveSample>, event: real, m: nat) {
    && m < |curve| && Usable(curve[m])
    && forall j :: 0 <= j < |curve| && Usable(curve[j]) ==> Distance(curve[m], event) <= Distance(curve[j], event)
  }

  /** A sample before the event that is farther than `d` but within the tolerance of it. */
  predicate NearTie(s: CurveSample, event: real, d: real) {
    Usable(s) && Elapsed(s) < event && d < Distance(s, event) <= d + EPSILON
  }

  predicate NoNearTie(curve: seq<CurveSample>, event: real, d: real) {
    forall i :: 0 <= i < |curve| ==> !NearTie(curve[i], event, d)
  }

  /** The curve has no usable sample, or no near tie with its least distance. */
  ghost predicate Unambiguous(curve: seq<CurveSample>, event: real) {
    forall m: nat :: IsNearest(curve, event, m) ==> NoNearTie(curve, event, Distance(curve[m], event))
  }

  // ----- The first least sample

  /** Lexicographic order on (distance, elapsed). */
  predicate Before(d1: real, e1: real, d2: real, e2: real) {
    d1 < d2 || (d1 == d2 && e1 < e2)
  }

  /** The first of the lexicographically least usable samples among the first `n`. */
  predicate IsLeast(curve: seq<CurveSample>, n: nat, event: real, k: nat)
    requires n <= |curve|
  {
    && k < n && Usable(curve[k])
    && (forall j :: 0 <= j < n && Usable(curve[j]) ==>
          !Before(Distance(curve[j], event), Elapsed(curve[j]), Distance(curve[k], event), Elapsed(curve[k])))
    && (forall j :: 0 <= j < k && Usable(curve[j]) ==>
          Before(Distance(curve[k], event), Elapsed(curve[k]), Distance(curve[j], event), Elapsed(curve[j])))
  }

  /** Among the first `n` samples one is at the least distance of the curve. */
  predicate Reached(curve: seq<CurveSample>, n: nat, event: real, d: real)
    requires n <= |curve|
  {
    exists j :: 0 <= j < n && Usable(curve[j]) && Distance(curve[j], event) == d
  }

  predicate NoneNearer(curve: seq<CurveSample>, event: real, d: real) {
    forall j :: 0 <= j < |curve| && Usable(curve[j]) ==> d <= Distance(curve[j], event)
  }

  /** A sample at the least distance displaces any farther one that is kept. */
  lemma LeastDisplaces(s: CurveSample, kept: CurveSample, event: real)
    requires Usable(s) && Usable(kept) && Distance(s, event) < Distance(kept, event)
    requires !NearTie(kept, event, Distance(s, event))
    ensures Replaces(s, Some(AsNearest(kept, event)), event)
  {
  }

  /** Once a sample at the least distance is kept, only such a sample with an earlier time displaces it. */
  lemma LeastStays(s: CurveSample, kept: CurveSample, event: real)
    requires Usable(s) && Usable(kept) && Distance(kept, event) <= Distance(s, event)
    requires !NearTie(s, event, Distance(kept, event))
    ensures Replaces(s, Some(AsNearest(kept, event)), event)
            <==> Distance(s, event) == Distance(kept, event) && Elapsed(s) < Elapsed(kept)
  {
  }

  /** From the first sample at the least distance on, the pass keeps the first least sample seen. */
  lemma {:induction false} PassKeepsLeast(curve: seq<CurveSample>, n: nat, event: real, d: real) returns (k: nat)
    requires n <= |curve| && NoneNearer(curve, event, d) && NoNearTie(curve, event, d) && Reached(curve, n, event, d)
    ensures IsLeast(curve, n, event, k) && Distance(curve[k], event) == d
    ensures Streamed(curve, n, event) == Some(AsNearest(curve[k], event))
  {
    hide NearTie, Replaces, Distance, Elapsed, Usable, NoNearTie;
    var s := curve[n - 1];
    assert !NearTie(s, event, d) by { TieFree(curve, event, d, n - 1); }
    if Reached(curve, n - 1, event, d) {
      k := PassKeepsLeast(curve, n - 1, event, d);
      if Usable(s) {
        LeastStays(s, curve[k], event);
        if Replaces(s, Streamed(curve, n - 1, event), event) { k := n - 1; }
      }
    } else {
      k := n - 1;
      StreamedIsSample(curve, n - 1, event);
      var best := Streamed(curve, n - 1, event);
      FirstReplaces(s, best, event);
      if best.Some? {
        var j :| 0 <= j < n - 1 && Usable(curve[j]) && best.value == AsNearest(curve[j], event);
        TieFree(curve, event, d, j);
        LeastDisplaces(s, curve[j], event);
      }
    }
  }

  lemma FirstReplaces(s: CurveSample, best: Option<Nearest>, event: real)
    ensures best.None? && Usable(s) ==> Replaces(s, best, event)
  {
  }

  lemma TieFree(curve: seq<CurveSample>, event: real, d: real, i: nat)
    requires NoNearTie(curve, event, d) && i < |curve|
    ensures !NearTie(curve[i], event, d)
  {
    hide NearTie;
  }

  lemma {:induction false} NearestExists(curve: seq<CurveSample>, n: nat, event: real) returns (m: nat)
    requires n <= |curve| && UsableCount(curve, n) > 0
    ensures m < n && Usable(curve[m])
    ensures forall j :: 0 <= j < n && Usable(curve[j]) ==> Distance(curve[m], event) <= Distance(curve[j], event)
  {
    if UsableCount(curve, n - 1) == 0 {
      m := n - 1;
      NoneUsable(curve, n - 1);
    } else {
      m := NearestExists(curve, n - 1, event);
      if Usable(curve[n - 1]) && Distance(curve[n - 1], event) < Distance(curve[m], event) { m := n - 1; }
    }
  }

  lemma {:induction false} NoneUsable(curve: seq<CurveSample>, n: nat)
    requires n <= |curve| && UsableCount(curve, n) == 0
    ensures forall j :: 0 <= j < n ==> !Usable(curve[j])
  {
    if n > 0 { NoneUsable(curve, n - 1); }
  }

  lemma {:induction false} SomeUsable(curve: seq<CurveSample>, n: nat, k: nat)
    requires k < n <= |curve| && Usable(curve[k])
    ensures UsableCount(curve, n) > 0
  {
    if k < n - 1 { SomeUsable(curve, n - 1, k); }
  }

  /** On an unambiguous curve the pass keeps the first lexicographically least sample. */
  lemma StreamedIsLeast(curve: seq<CurveSample>, event: real) returns (k: nat)
    requires Unambiguous(curve, event) && UsableCount(curve, |curve|) > 0
    ensures IsLeast(curve, |curve|, event, k)
    ensures Streamed(curve, |curve|, event) == Some(AsNearest(curve[k], event))
  {
    hide NoNearTie, Streamed, Distance, Elapsed, Usable;
    var m := NearestExists(curve, |curve|, event);
    assert IsNearest(curve, event, m);
    k := PassKeepsLeast(curve, |curve|, event, Distance(curve[m], event));
  }

  // ----- Necessity

  /** The pass over `b` ends at the distance `d`. */
  predicate EndsAt(b: seq<CurveSample>, event: real, d: real) {
    Streamed(b, |b|, event).Some? && Streamed(b, |b|, event).value.distance == d
  }

  lemma {:induction false} StreamedPrefix(a: seq<CurveSample>, b: seq<CurveSample>, n: nat, event: real)
    requires n <= |a|
    ensures Streamed(a + b, n, event) == Streamed(a, n, event)
  {
    if n > 0 { StreamedPrefix(a, b, n - 1, event); }
  }

  /** A near tie that comes last leaves a farther sample kept. */
  lemma TieLastLoses(rest: seq<CurveSample>, x: CurveSample, event: real, d: real)
    requires NearTie(x, event, d) && UsableCount(rest, |rest|) > 0
    ensures !EndsAt(rest + [x], event, d)
  {
    StreamedPrefix(rest, [x], |rest|, event);
    StreamedIsSample(rest, |rest|, event);
  }

  lemma MoveToEnd(curve: seq<CurveSample>, i: nat) returns (rest: seq<CurveSample>)
    requires i < |curve|
    ensures rest == curve[..i] + curve[i + 1..] && multiset(rest + [curve[i]]) == multiset(curve)
  {
    rest := curve[..i] + curve[i + 1..];
    assert curve == curve[..i] + [curve[i]] + curve[i + 1..];
  }

  lemma SameMembers(a: seq<CurveSample>, b: seq<CurveSample>)
    requires multiset(a) == multiset(b)
    ensures SameSamples(a, b)
  {
    forall s ensures s in a <==> s in b {
      assert s in a <==> s in multiset(a);
      assert s in b <==> s in multiset(b);
    }
  }

  lemma AnyOrderEndsAt(curve: seq<CurveSample>, b: seq<CurveSample>, event: real, m: nat)
    requires IsNearest(curve, event, m) && NoNearTie(curve, event, Distance(curve[m], event))
    requires SameSamples(curve, b)
    ensures EndsAt(b, event, Distance(curve[m], event))
  {
    hide NearTie, Streamed, Distance, Elapsed, Usable;
    var d := Distance(curve[m], event);
    forall j | 0 <= j < |b|
      ensures !NearTie(b[j], event, d) && (Usable(b[j]) ==> d <= Distance(b[j], event))
    {
      assert b[j] in curve;
      var i :| 0 <= i < |curve| && curve[i] == b[j];
      TieFree(curve, event, d, i);
    }
    assert curve[m] in b;
    var h :| 0 <= h < |b| && b[h] == curve[m];
    assert Reached(b, |b|, event, d);
    var k := PassKeepsLeast(b, |b|, event, d);
  }

  lemma TieLosesSomewhere(curve: seq<CurveSample>, event: real, m: nat, i: nat) returns (b: seq<CurveSample>)
    requires IsNearest(curve, event, m) && i < |curve| && NearTie(curve[i], event, Distance(curve[m], event))
    ensures multiset(b) == multiset(curve) && !EndsAt(b, event, Distance(curve[m], event))
  {
    hide Streamed, EndsAt;
    var rest := MoveToEnd(curve, i);
    var h := if m < i then m else m - 1;
    assert rest[h] == curve[m];
    SomeUsable(rest, |rest|, h);
    TieLastLoses(rest, curve[i], event, Distance(curve[m], event));
    b := rest + [curve[i]];
  }

  /**
   * The search returns a nearest sample in every order of the samples exactly when no usable sample before the
   * event is farther than the nearest one by no more than the tolerance.
   */
  lemma NearestInEveryOrderExactly(curve: seq<CurveSample>, event: real, m: nat)
    requires IsNearest(curve, event, m)
    ensures (forall b: seq<CurveSample> :: multiset(b) == multiset(curve) ==>
             EndsAt(b, event, Distance(curve[m], event)))
            <==> NoNearTie(curve, event, Distance(curve[m], event))
  {
    hide EndsAt, NearTie;
    var d := Distance(curve[m], event);
    if NoNearTie(curve, event, d) {
      forall b: seq<CurveSample> | multiset(b) == multiset(curve) ensures EndsAt(b, event, d) {
        SameMembers(curve, b);
        AnyOrderEndsAt(curve, b, event, m);
      }
    } else {
      var i :| 0 <= i < |curve| && NearTie(curve[i], event, d);
      var b := TieLosesSomewhere(curve, event, m, i);
    }
  }

  /** Two samples one tolerance apart, the event at the first: the search returns the second. */
  lemma RecedingFails()
    ensures IsNearest(Receding(2), 0.0, 0) && NearTie(Receding(2)[1], 0.0, Distance(Receding(2)[0], 0.0))
    ensures !EndsAt(Receding(2), 0.0, Distance(Receding(2)[0], 0.0))
  {
    DriftReached(2, 2);
  }

  /** The tolerance is a billionth of a second: a sample that much farther away is taken, one twice as far is not. */
  lemma ToleranceIsANanosecond(far: real)
    requires far == 0.000000001 || far == 0.000000002
    ensures var curve := [CurveSample(Some(Fin(0.0)), Some(200.0)), CurveSample(Some(Fin(-far)), Some(210.0))];
            TemperatureOf(Streamed(curve, 2, 0.0)) == Some(if far == 0.000000001 then 210.0 else 200.0)
  {
    var curve := [CurveSample(Some(Fin(0.0)), Some(200.0)), CurveSample(Some(Fin(-far)), Some(210.0))];
    assert Streamed(curve, 0, 0.0) == None;
    assert Streamed(curve, 1, 0.0) == Some(Nearest(0.0, Some(200.0), 0.0));
  }

  // ----- Order

  predicate ElapsedDistinct(curve: seq<CurveSample>) {
    forall i, j :: 0 <= i < j < |curve| && Usable(curve[i]) && Usable(curve[j]) ==>
      Elapsed(curve[i]) != Elapsed(curve[j])
  }

  ghost predicate SameSamples(a: seq<CurveSample>, b: seq<CurveSample>) {
    forall s :: s in a <==> s in b
  }

  /** With distinct elapsed times the order of the samples of an unambiguous curve does not matter. */
  lemma OrderDoesNotMatter(a: seq<CurveSample>, b: seq<CurveSample>, event: real)
    requires SameSamples(a, b) && Unambiguous(a, event) && ElapsedDistinct(a)
    ensures Streamed(a, |a|, event) == Streamed(b, |b|, event)
  {
    hide Distance, Elapsed, Usable, Streamed, Unambiguous;
    UnambiguousTransfers(a, b, event);
    if UsableCount(a, |a|) == 0 {
      NoneUsableTransfers(a, b, event);
    } else {
      var k := StreamedIsLeast(a, event);
      var h :| 0 <= h < |b| && b[h] == a[k] by { assert a[k] in b; }
      SomeUsable(b, |b|, h);
      var m := StreamedIsLeast(b, event);
      LeastAgree(a, b, event, k, m);
    }
  }

  lemma UnambiguousTransfers(a: seq<CurveSample>, b: seq<CurveSample>, event: real)
    requires SameSamples(a, b) && Unambiguous(a, event)
    ensures Unambiguous(b, event)
  {
    hide Distance, Elapsed, Usable, NearTie;
    forall m: nat | IsNearest(b, event, m) ensures NoNearTie(b, event, Distance(b[m], event)) {
      var p := NearestTransfers(a, b, event, m);
      forall i | 0 <= i < |b| ensures !NearTie(b[i], event, Distance(b[m], event)) {
        assert b[i] in a;
        var q :| 0 <= q < |a| && a[q] == b[i];
        TieFree(a, event, Distance(a[p], event), q);
      }
    }
  }

  lemma NearestTransfers(a: seq<CurveSample>, b: seq<CurveSample>, event: real, m: nat) returns (p: nat)
    requires SameSamples(a, b) && IsNearest(b, event, m)
    ensures IsNearest(a, event, p) && a[p] == b[m]
  {
    hide Distance, Elapsed, Usable;
    assert b[m] in a;
    p :| 0 <= p < |a| && a[p] == b[m];
    forall j | 0 <= j < |a| && Usable(a[j]) ensures Distance(a[p], event) <= Distance(a[j], event) {
      assert a[j] in b;
      var h :| 0 <= h < |b| && b[h] == a[j];
    }
  }

  lemma NoneUsableTransfers(a: seq<CurveSample>, b: seq<CurveSample>, event: real)
    requires SameSamples(a, b) && UsableCount(a, |a|) == 0
    ensures Streamed(a, |a|, event) == None == Streamed(b, |b|, event)
  {
    hide Distance, Elapsed, Usable;
    NoneUsable(a, |a|);
    StreamedIsSample(a, |a|, event);
    StreamedIsSample(b, |b|, event);
    forall j | 0 <= j < |b| ensures !Usable(b[j]) {
      assert b[j] in a;
    }
  }

  lemma LeastAgree(a: seq<CurveSample>, b: seq<CurveSample>, event: real, k: nat, m: nat)
    requires SameSamples(a, b) && ElapsedDistinct(a) && IsLeast(a, |a|, event, k) && IsLeast(b, |b|, event, m)
    ensures a[k] == b[m]
  {
    hide Distance, Elapsed, Usable;
    assert b[m] in a && a[k] in b;
    var p :| 0 <= p < |a| && a[p] == b[m];
    var q :| 0 <= q < |b| && b[q] == a[k];
    if Elapsed(a[k]) == Elapsed(b[m]) { assert p == k; }
  }

  // ----- Separated distances are one sufficient condition

  /** Distances are equal or more than the tolerance apart. */
  predicate Separated(curve: seq<CurveSample>, event: real) {
    forall i, j :: 0 <= i < |curve| && 0 <= j < |curve| && Usable(curve[i]) && Usable(curve[j]) ==>
      || Distance(curve[i], event) == Distance(curve[j], event)
      || Abs(Distance(curve[i], event) - Distance(curve[j], event)) > EPSILON
  }

  lemma SeparatedIsUnambiguous(curve: seq<CurveSample>, event: real)
    requires Separated(curve, event)
    ensures Unambiguous(curve, event)
  {
    hide Elapsed, Distance;
    forall m: nat, i | IsNearest(curve, event, m) && 0 <= i < |curve| && Usable(curve[i])
      ensures !NearTie(curve[i], event, Distance(curve[m], event))
    {
      assert Usable(curve[m]);
    }
  }

  /** So are distances of samples that are all at or after the event, however close they are. */
  lemma NothingBeforeIsUnambiguous(curve: seq<CurveSample>, event: real)
    requires forall i :: 0 <= i < |curve| && Usable(curve[i]) ==> event <= Elapsed(curve[i])
    ensures Unambiguous(curve, event)
  {
    hide Distance;
  }
}

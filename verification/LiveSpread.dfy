/** The mean and the sample standard deviation of readings some of which are missing. */
module LiveSpread {
  import opened Wrappers

  function Present(values: seq<Option<real>>): seq<real> {
    if values == [] then []
    else Present(values[..|values| - 1]) + if values[|values| - 1].Some? then [values[|values| - 1].value] else []
  }

  function Total(values: seq<real>): real {
    if values == [] then 0.0 else Total(values[..|values| - 1]) + values[|values| - 1]
  }

  function Times(a: real, b: real): real {
    a * b
  }

  function SquaresAbout(values: seq<real>, centre: real): real {
    if values == [] then 0.0 else
      SquaresAbout(values[..|values| - 1], centre)
      + Times(values[|values| - 1] - centre, values[|values| - 1] - centre)
  }

  /** The mean of the present values, and their sample standard deviation. */
  datatype Spread = Spread(mean: Option<real>, stddev: Option<real>)

  /** What the platform's square root does, rounding aside. */
  ghost predicate IsRoot(sqrt: real -> real) {
    forall x :: x >= 0.0 ==> sqrt(x) >= 0.0 && Times(sqrt(x), sqrt(x)) == x
  }

  function MeanOf(present: seq<real>): real
    requires present != []
  {
    Total(present) / |present| as real
  }

  function Variance(present: seq<real>): real
    requires |present| >= 2
  {
    SquaresAbout(present, MeanOf(present)) / (|present| - 1) as real
  }

  function MeanStddev(values: seq<Option<real>>, sqrt: real -> real): Spread {
    var present := Present(values);
    Spread(if present == [] then None else Some(MeanOf(present)),
           if |present| < 2 then None else Some(sqrt(Variance(present))))
  }

  lemma {:induction false} SquaresNonNegative(values: seq<real>, centre: real)
    ensures SquaresAbout(values, centre) >= 0.0
    ensures SquaresAbout(values, centre) == 0.0 <==> forall i :: 0 <= i < |values| ==> values[i] == centre
  {
    hide Times;
    if values != [] {
      var init, last := values[..|values| - 1], values[|values| - 1];
      SquaresNonNegative(init, centre);
      SquareSign(last - centre);
      assert (forall i :: 0 <= i < |init| ==> init[i] == centre)
             <==> forall i :: 0 <= i < |init| ==> values[i] == centre;
    }
  }

  lemma SquareSign(x: real)
    ensures x == 0.0 ==> Times(x, x) == 0.0
    ensures x != 0.0 ==> Times(x, x) > 0.0
  {
    hide Times;
    if x == 0.0 { TimesZero(x, x); } else { TimesSameSign(x, x); }
  }

  lemma TimesZero(a: real, b: real)
    requires a == 0.0
    ensures Times(a, b) == 0.0
  {
  }

  lemma TimesSameSign(a: real, b: real)
    requires (a > 0.0 && b > 0.0) || (a < 0.0 && b < 0.0)
    ensures Times(a, b) > 0.0
  {
  }

  lemma {:induction false} TotalOfEqual(values: seq<real>, x: real)
    requires forall i :: 0 <= i < |values| ==> values[i] == x
    ensures Total(values) == |values| as real * x
  {
    if values != [] {
      TotalOfEqual(values[..|values| - 1], x);
    }
  }

  lemma RootSign(sqrt: real -> real, x: real)
    requires IsRoot(sqrt) && x >= 0.0
    ensures sqrt(x) >= 0.0 && (sqrt(x) == 0.0 <==> x == 0.0)
  {
    hide Times;
    SquareSign(sqrt(x));
  }

  predicate AllEqual(values: seq<real>) {
    forall i :: 0 <= i < |values| ==> values[i] == values[0]
  }

  lemma VarianceSign(present: seq<real>)
    requires |present| >= 2
    ensures Variance(present) >= 0.0 && (Variance(present) == 0.0 <==> AllEqual(present))
  {
    hide SquaresAbout, Total;
    var mean, n := MeanOf(present), |present| as real;
    SquaresNonNegative(present, mean);
    QuotientSign(SquaresAbout(present, mean), n - 1.0);
    if AllEqual(present) {
      TotalOfEqual(present, present[0]);
      assert n * present[0] / n == present[0];
    }
  }

  /**
   * The deviation is never negative, squares to the variance, and is zero exactly when all present values are equal.
   */
  lemma SpreadZeroExactly(values: seq<Option<real>>, sqrt: real -> real)
    requires |Present(values)| >= 2 && IsRoot(sqrt)
    ensures var deviation := MeanStddev(values, sqrt).stddev.value;
            && deviation >= 0.0
            && Times(deviation, deviation) == Variance(Present(values))
            && (deviation == 0.0 <==> AllEqual(Present(values)))
  {
    hide Present, Variance, AllEqual, Times, MeanOf;
    var present := Present(values);
    VarianceSign(present);
    RootSign(sqrt, Variance(present));
  }

  lemma QuotientSign(a: real, b: real)
    requires a >= 0.0 && b > 0.0
    ensures a / b >= 0.0 && (a / b == 0.0 <==> a == 0.0)
  {
    assert a / b * b == a;
  }

  // ----- What makes them mean and deviation

  function Count(values: seq<Option<real>>): nat {
    if values == [] then 0 else (if values[0].Some? then 1 else 0) + Count(values[1..])
  }

  function SumOf(values: seq<Option<real>>): real {
    if values == [] then 0.0 else values[0].GetOr(0.0) + SumOf(values[1..])
  }

  function SquareSumOf(values: seq<Option<real>>): real {
    if values == [] then 0.0 else Times(values[0].GetOr(0.0), values[0].GetOr(0.0)) + SquareSumOf(values[1..])
  }

  /**
   * The mean, counted back, is the sum; the deviation, squared and counted back with n - 1, is what the sum of the
   * squares exceeds n times the mean's square by.
   */
  ghost predicate IsSpread(s: Spread, values: seq<Option<real>>) {
    var n := Count(values) as real;
    && (s.mean.None? <==> Count(values) == 0)
    && (s.mean.Some? ==> s.mean.value * n == SumOf(values))
    && (s.stddev.None? <==> Count(values) < 2)
    && (s.stddev.Some? ==>
          && s.mean.Some? && s.stddev.value >= 0.0
          && Times(s.stddev.value, s.stddev.value) * (n - 1.0)
             == SquareSumOf(values) - n * Times(s.mean.value, s.mean.value))
  }

  lemma {:induction false} PresentFromFront(values: seq<Option<real>>)
    requires values != []
    ensures Present(values) == (if values[0].Some? then [values[0].value] else []) + Present(values[1..])
  {
    if |values| > 1 {
      var init := values[..|values| - 1];
      PresentFromFront(init);
      assert values[1..][..|values| - 2] == init[1..];
    } else {
      assert Present(values[1..]) == [];
    }
  }

  function Squares(present: seq<real>): real {
    if present == [] then 0.0
    else Squares(present[..|present| - 1]) + Times(present[|present| - 1], present[|present| - 1])
  }

  lemma {:induction false} TotalFromFront(x: real, rest: seq<real>)
    ensures Total([x] + rest) == x + Total(rest) && Squares([x] + rest) == Times(x, x) + Squares(rest)
  {
    hide Times;
    if rest == [] {
      assert [x] + rest == [x] && [x][..0] == [];
    } else {
      var init, last := rest[..|rest| - 1], rest[|rest| - 1];
      TotalFromFront(x, init);
      assert ([x] + rest)[..|rest|] == [x] + init;
    }
  }

  lemma {:induction false} PresentSums(values: seq<Option<real>>)
    ensures |Present(values)| == Count(values)
    ensures Total(Present(values)) == SumOf(values) && Squares(Present(values)) == SquareSumOf(values)
  {
    hide Present, Times;
    if values == [] {
      NothingPresent();
    } else {
      PresentSums(values[1..]);
      PresentFromFront(values);
      if values[0].Some? {
        TotalFromFront(values[0].value, Present(values[1..]));
      } else {
        assert [] + Present(values[1..]) == Present(values[1..]);
        ZeroSquared();
      }
    }
  }

  lemma ZeroSquared()
    ensures Times(0.0, 0.0) == 0.0
  {
  }

  lemma NothingPresent()
    ensures Present([]) == []
  {
  }

  lemma SquareAbout(x: real, c: real)
    ensures Times(x - c, x - c) == Times(x, x) - 2.0 * Times(c, x) + Times(c, c)
  {
  }

  lemma AddToProduct(c: real, a: real, b: real)
    ensures Times(c, a + b) == Times(c, a) + Times(c, b)
  {
  }

  /** Squares about a centre, multiplied out. */
  lemma {:induction false} SquaresExpand(present: seq<real>, c: real)
    ensures SquaresAbout(present, c)
            == Squares(present) - 2.0 * Times(c, Total(present)) + |present| as real * Times(c, c)
  {
    hide Times;
    if present == [] {
      NothingTimes(c);
    } else {
      var init, last := present[..|present| - 1], present[|present| - 1];
      SquaresExpand(init, c);
      SquareAbout(last, c);
      AddToProduct(c, Total(init), last);
      assert |present| as real == |init| as real + 1.0;
      OneMore(|init| as real, |present| as real, Times(c, c));
      assert SquaresAbout(present, c) == SquaresAbout(init, c) + Times(last - c, last - c);
      assert Squares(present) == Squares(init) + Times(last, last);
      assert Total(present) == Total(init) + last;
      assert Times(c, Total(present)) == Times(c, Total(init)) + Times(c, last);
      assert |present| as real * Times(c, c) == |init| as real * Times(c, c) + Times(c, c);
    }
  }

  lemma NothingTimes(c: real)
    ensures Times(c, 0.0) == 0.0
  {
  }

  lemma OneMore(n: real, m: real, q: real)
    requires m == n + 1.0
    ensures m * q == n * q + q
  {
  }

  lemma MeanCountedBack(present: seq<real>)
    requires present != []
    ensures MeanOf(present) * |present| as real == Total(present)
    ensures Times(MeanOf(present), Total(present)) == |present| as real * Times(MeanOf(present), MeanOf(present))
  {
    hide Total;
    var m, n := MeanOf(present), |present| as real;
    assert Total(present) / n * n == Total(present);
    ProductOfThree(m, n);
  }

  lemma ProductOfThree(m: real, n: real)
    ensures Times(m, m * n) == n * Times(m, m)
  {
  }

  lemma VarianceCountedBack(present: seq<real>)
    requires |present| >= 2
    ensures Variance(present) * (|present| - 1) as real
            == Squares(present) - |present| as real * Times(MeanOf(present), MeanOf(present))
  {
    hide Times, Total, SquaresAbout, Squares;
    SquaresExpand(present, MeanOf(present));
    MeanCountedBack(present);
    var about, n1 := SquaresAbout(present, MeanOf(present)), (|present| - 1) as real;
    assert about / n1 * n1 == about;
  }

  /** The computed spread is the mean and the sample deviation of the present values. */
  lemma SpreadMeans(values: seq<Option<real>>, sqrt: real -> real)
    requires IsRoot(sqrt)
    ensures IsSpread(MeanStddev(values, sqrt), values)
  {
    hide Times, Present, Variance, MeanOf, Count, SumOf, SquareSumOf, Squares, Total;
    var present := Present(values);
    PresentSums(values);
    if present != [] { MeanCountedBack(present); }
    if |present| >= 2 {
      VarianceCountedBack(present);
      VarianceSign(present);
    }
  }

  /** Two readings: their deviation squares to half the square of their distance. */
  lemma TwoReadings(a: real, b: real, sqrt: real -> real)
    requires IsRoot(sqrt)
    ensures var s := MeanStddev([Some(a), None, Some(b)], sqrt);
            && s.mean == Some((a + b) / 2.0) && s.stddev.Some?
            && 2.0 * Times(s.stddev.value, s.stddev.value) == Times(a - b, a - b)
  {
    hide MeanStddev, IsRoot;
    var values := [Some(a), None, Some(b)];
    var s := MeanStddev(values, sqrt);
    SpreadMeans(values, sqrt);
    ZeroSquared();
    OneReading(b);
    var rest := [None, Some(b)];
    assert rest[1..] == [Some(b)] && values[1..] == rest;
    assert Count(rest) == 1 && SumOf(rest) == b && SquareSumOf(rest) == Times(b, b);
    assert Count(values) == 2 && SumOf(values) == a + b && SquareSumOf(values) == Times(a, a) + Times(b, b);
    HalfSquares(a, b, s.mean.value, Times(s.stddev.value, s.stddev.value));
  }

  lemma OneReading(b: real)
    ensures Count([Some(b)]) == 1 && SumOf([Some(b)]) == b && SquareSumOf([Some(b)]) == Times(b, b)
  {
    hide Times;
    assert [Some(b)][1..] == [];
  }

  lemma HalfSquares(a: real, b: real, m: real, v: real)
    requires m * 2.0 == a + b && v * (2.0 - 1.0) == Times(a, a) + Times(b, b) - 2.0 * Times(m, m)
    ensures 2.0 * v == Times(a - b, a - b)
  {
    assert m == (a + b) / 2.0;
    assert 4.0 * Times(m, m) == Times(a + b, a + b);
  }
}

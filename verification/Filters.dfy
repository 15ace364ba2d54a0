/**
  The smoothing filters over exact reals: the exponential filter and the scalar Kalman filter,
  each as the class the service keeps per client and as the function of the readings received
  since the last reset that the class computes.
*/
module Filters {
  import opened Basics
  import opened Readings

  // ---------------------------------------------------------------- runs since the last reset

  /** The readings of a run that parse, as numbers. */
  function Numbers(run: seq<string>): seq<real> {
    if |run| == 0 then []
    else
      var rest := Numbers(run[..|run| - 1]);
      match Parse(run[|run| - 1])
      case None => rest
      case Some(v) => rest + [v]
  }

  predicate Bounded(values: seq<real>, low: real, high: real) {
    forall i | 0 <= i < |values| :: low <= values[i] <= high
  }

  /** A product, kept behind a name so that proofs see it as one quantity. */
  function Times(x: real, y: real): real {
    x * y
  }

  /** The point part of the way from one value to another. */
  function Mix(weight: real, target: real, from: real): real {
    weight * target + (1.0 - weight) * from
  }

  lemma Scale(weight: real, x: real, y: real)
    requires weight >= 0.0 && x <= y
    ensures Times(weight, x) <= Times(weight, y)
  {
  }

  /** Part of a distance. */
  lemma PartOf(weight: real, d: real)
    requires 0.0 <= weight <= 1.0 && d >= 0.0
    ensures 0.0 <= Times(weight, d) <= d
  {
    Scale(d, 0.0, weight);
    Scale(d, weight, 1.0);
  }

  lemma MixAsStep(weight: real, target: real, from: real)
    ensures Mix(weight, target, from) == from + Times(weight, target - from) == from - Times(weight, from - target)
  {
  }

  lemma MixBetween(weight: real, target: real, from: real, low: real, high: real)
    requires 0.0 <= weight <= 1.0
    requires low <= target <= high && low <= from <= high
    ensures low <= Mix(weight, target, from) <= high
  {
    hide Mix, Times;
    MixAsStep(weight, target, from);
    if from <= target {
      PartOf(weight, target - from);
    } else {
      PartOf(weight, from - target);
    }
  }

  /** A point between two bounds stays there when moved part of the way to another such point. */
  lemma Blend(weight: real, target: real, from: real, low: real, high: real)
    requires 0.0 <= weight <= 1.0
    requires low <= target <= high && low <= from <= high
    ensures low <= weight * target + (1.0 - weight) * from <= high
  {
    MixBetween(weight, target, from, low, high);
  }

  // ---------------------------------------------------------------- exponential smoothing

  function ClampUnit(alpha: real): real {
    Max(0.0, Min(1.0, alpha))
  }

  /** The smoothed value after the given numbers. */
  function Smooth(alpha: real, values: seq<real>): real
    requires |values| > 0
  {
    var last := values[|values| - 1];
    if |values| == 1 then last
    else alpha * last + (1.0 - alpha) * Smooth(alpha, values[..|values| - 1])
  }

  /** Every output lies between the smallest and the largest number since the reset. */
  lemma {:induction false} SmoothStaysInRange(alpha: real, values: seq<real>, low: real, high: real)
    requires 0.0 <= alpha <= 1.0 && |values| > 0 && Bounded(values, low, high)
    ensures low <= Smooth(alpha, values) <= high
  {
    if |values| > 1 {
      var prefix := values[..|values| - 1];
      SmoothStaysInRange(alpha, prefix, low, high);
      Blend(alpha, values[|values| - 1], Smooth(alpha, prefix), low, high);
    }
  }

  function Repeat(c: real, n: nat): seq<real> {
    seq(n, _ => c)
  }

  /** On a constant input the distance shrinks by exactly (1 - alpha) a reading. */
  lemma {:induction false} SmoothConvergesExactly(alpha: real, start: real, c: real, n: nat)
    ensures Smooth(alpha, [start] + Repeat(c, n)) - c == Power(1.0 - alpha, n) * (start - c)
  {
    var values := [start] + Repeat(c, n);
    if n > 0 {
      var prefix := [start] + Repeat(c, n - 1);
      assert values[..|values| - 1] == prefix;
      SmoothConvergesExactly(alpha, start, c, n - 1);
      var d := Smooth(alpha, prefix) - c;
      assert alpha * c + (1.0 - alpha) * (d + c) - c == (1.0 - alpha) * d;
      Rotate(1.0 - alpha, Power(1.0 - alpha, n - 1), start - c);
    }
  }

  lemma Rotate(x: real, y: real, z: real)
    ensures x * (y * z) == (y * x) * z
  {
  }

  class ExponentialSmoothingFilter {
    const alpha: real
    var initialized: bool
    var previous: Option<real>
    ghost var run: seq<string>      // what was filtered since the last reset

    ghost predicate Valid()
      reads this
    {
      && 0.0 <= alpha <= 1.0
      && initialized == (|Numbers(run)| > 0)
      && previous == if initialized then Some(Smooth(alpha, Numbers(run))) else None
    }

    constructor (alpha: real)
      ensures Valid() && run == []
      ensures 0.0 <= alpha <= 1.0 ==> this.alpha == alpha
      ensures alpha < 0.0 ==> this.alpha == 0.0
      ensures alpha > 1.0 ==> this.alpha == 1.0
    {
      this.alpha := ClampUnit(alpha);
      initialized := false;
      previous := None;
      run := [];
    }

    method Filter(value: string) returns (text: string, numeric: Option<real>)
      requires Valid()
      modifies this
      ensures Valid() && run == old(run) + [value]
      ensures Parse(value).None? ==> text == value && numeric == None && previous == old(previous)
      ensures Parse(value).Some? ==>
                numeric == Some(Smooth(alpha, Numbers(run))) && text == FormatTenths(numeric.value)
      ensures Parse(value).Some? ==>
                && previous == numeric
                && numeric.value == if old(previous).None? then Parse(value).value
                                    else alpha * Parse(value).value + (1.0 - alpha) * old(previous).value
    {
      hide Parse, FormatTenths;
      run := run + [value];
      assert run[..|run| - 1] == old(run);
      var parsed := Parse(value);
      if parsed.None? {
        return value, None;
      }
      assert Numbers(run)[..|Numbers(run)| - 1] == Numbers(old(run));
      if !initialized {
        previous := parsed;
        initialized := true;
        return FormatTenths(parsed.value), parsed;
      }
      ghost var values := Numbers(run);
      assert values[|values| - 1] == parsed.value && |values| > 1;
      var filtered := alpha * parsed.value + (1.0 - alpha) * previous.value;
      assert filtered == Smooth(alpha, values);
      previous := Some(filtered);
      return FormatTenths(filtered), previous;
    }

    method Reset()
      requires Valid()
      modifies this
      ensures Valid() && run == [] && previous == None
    {
      initialized := false;
      previous := None;
      run := [];
    }
  }

  // ---------------------------------------------------------------- Kalman

  datatype Estimate = Estimate(x: real, p: real)

  const FLOOR := 0.0001

  predicate Noise(q: real, r: real) {
    q >= FLOOR && r >= FLOOR
  }

  function Gain(p: real, q: real, r: real): real
    requires Noise(q, r) && p >= 0.0
  {
    (p + q) / (p + q + r)
  }

  /** The covariance after one more reading. */
  function NextCovariance(p: real, q: real, r: real): (next: real)
    requires Noise(q, r) && p >= 0.0
    ensures 0.0 < next < r
  {
    CovarianceStep(p, q, r);
    (1.0 - Gain(p, q, r)) * (p + q)
  }

  function Update(e: Estimate, q: real, r: real, value: real): Estimate
    requires Noise(q, r) && e.p >= 0.0
  {
    Estimate(e.x + Gain(e.p, q, r) * (value - e.x), NextCovariance(e.p, q, r))
  }

  /**
    The defining equations of a correction by a reading, given the predicted covariance:
    the estimate moves by the share of the predicted covariance in the total, and the covariance
    keeps the share of the measurement noise.
  */
  predicate Corrects(x: real, predicted: real, r: real, value: real, x': real, p': real) {
    (x' - x) * (predicted + r) == predicted * (value - x) && p' * (predicted + r) == r * predicted
  }

  lemma UpdateCorrects(e: Estimate, q: real, r: real, value: real)
    requires Noise(q, r) && e.p >= 0.0
    ensures var e' := Update(e, q, r, value); Corrects(e.x, e.p + q, r, value, e'.x, e'.p)
  {
    var k, d, gap := Gain(e.p, q, r), e.p + q + r, value - e.x;
    GainBounds(e.p, q, r);
    CovarianceStep(e.p, q, r);
    Swap(k, gap, d);
  }

  lemma UpdateIs(e: Estimate, q: real, r: real, value: real, predicted: real, k: real)
    requires Noise(q, r) && e.p >= 0.0 && predicted == e.p + q && k == predicted / (predicted + r)
    ensures Update(e, q, r, value) == Estimate(e.x + k * (value - e.x), (1.0 - k) * predicted)
  {
  }

  lemma Swap(x: real, y: real, z: real)
    ensures (x * y) * z == (x * z) * y
  {
  }

  /** The estimate after the given numbers. */
  function Track(q: real, r: real, values: seq<real>): (e: Estimate)
    requires Noise(q, r) && |values| > 0
    ensures e.p > 0.0
  {
    if |values| == 1 then Estimate(values[0], 1.0)
    else
      var before := Track(q, r, values[..|values| - 1]);
      Update(before, q, r, values[|values| - 1])
  }

  /** The polynomial whose positive root is the steady-state covariance. */
  function Steady(p: real, q: real, r: real): real {
    p * p + q * p - q * r
  }

  lemma GainBounds(p: real, q: real, r: real)
    requires Noise(q, r) && p >= 0.0
    ensures var k := Gain(p, q, r);
            && 0.0 < k < 1.0
            && k * (p + q + r) == p + q
            && (1.0 - k) * (p + q + r) == r
            && 0.0 < 1.0 - k == r / (p + q + r) <= r / (q + r)
  {
    var d, k := p + q + r, Gain(p, q, r);
    assert k * d == p + q;
    Distribute(1.0, k, d);
    assert (1.0 - k) * d == r;
    QuotientOf(1.0 - k, d, r);
    PositiveQuotient(p + q, d);
    PositiveQuotient(r, d);
    LargerDenominator(r, q + r, d);
  }

  lemma Distribute(x: real, y: real, z: real)
    ensures (x - y) * z == x * z - y * z
  {
  }

  lemma QuotientOf(k: real, d: real, n: real)
    requires d > 0.0 && k * d == n
    ensures k == n / d
  {
  }

  lemma PositiveQuotient(n: real, d: real)
    requires n > 0.0 && d > 0.0
    ensures n / d > 0.0
  {
  }

  lemma LargerDenominator(n: real, d: real, e: real)
    requires n > 0.0 && 0.0 < d <= e
    ensures n / e <= n / d
  {
  }

  /** One covariance update: positive, below r, and written with the gain's complement. */
  lemma CovarianceStep(p: real, q: real, r: real)
    requires Noise(q, r) && p >= 0.0
    ensures var p' := (1.0 - Gain(p, q, r)) * (p + q);
            && 0.0 < p' < r
            && p' == Gain(p, q, r) * r
            && p' * (p + q + r) == r * (p + q)
  {
  }

  /**
    Exact contraction: each update multiplies the distance polynomial by the square of
    r / (p + q + r), and moves p by minus that polynomial over p + q + r.
  */
  lemma CovarianceContraction(p: real, q: real, r: real)
    requires Noise(q, r) && p >= 0.0
    ensures var p', g := NextCovariance(p, q, r), r / (p + q + r);
            && Steady(p', q, r) == g * g * Steady(p, q, r)
            && (p' - p) * (p + q + r) == -Steady(p, q, r)
  {
  }

  /** Covariance after n further readings; the readings themselves play no part. */
  function Covariance(q: real, r: real, n: nat): (p: real)
    requires Noise(q, r)
    ensures p > 0.0
  {
    if n == 0 then 1.0
    else
      NextCovariance(Covariance(q, r, n - 1), q, r)
  }

  lemma {:induction false} CovarianceIgnoresReadings(q: real, r: real, values: seq<real>)
    requires Noise(q, r) && |values| > 0
    ensures Track(q, r, values).p == Covariance(q, r, |values| - 1)
  {
    if |values| > 1 {
      CovarianceIgnoresReadings(q, r, values[..|values| - 1]);
    }
  }

  lemma SquareContracts(g: real, bound: real, f: real)
    requires 0.0 < g <= bound
    ensures g * g > 0.0
    ensures Abs(g * g * f) == g * g * Abs(f) <= bound * bound * Abs(f)
    ensures f >= 0.0 ==> g * g * f >= 0.0
    ensures f <= 0.0 ==> g * g * f <= 0.0
  {
  }

  /** Upper bound of the factor one update leaves of the distance. */
  function Rate(q: real, r: real): real
    requires Noise(q, r)
  {
    r / (q + r)
  }

  function RateSquared(q: real, r: real): real
    requires Noise(q, r)
  {
    Rate(q, r) * Rate(q, r)
  }

  /** One more factor in a geometric bound. */
  lemma GeometricStep(rate: real, n: nat, next: real, distance: real, start: real)
    requires rate >= 0.0
    requires next <= rate * distance && distance <= Power(rate, n) * start
    ensures next <= Power(rate, n + 1) * start
  {
  }

  /** The distance polynomial keeps its sign over one update and shrinks by the squared rate. */
  lemma ContractionStep(p: real, q: real, r: real)
    requires Noise(q, r) && p >= 0.0
    ensures var f, f' := Steady(p, q, r), Steady(NextCovariance(p, q, r), q, r);
            && RateSquared(q, r) > 0.0
            && Abs(f') <= RateSquared(q, r) * Abs(f)
            && (f >= 0.0 ==> f' >= 0.0) && (f <= 0.0 ==> f' <= 0.0)
  {
    hide Steady, NextCovariance, Rate, RateSquared;
    FactorBounds(p, q, r);
    CovarianceContraction(p, q, r);
    SquareContracts(r / (p + q + r), Rate(q, r), Steady(p, q, r));
    RatePositive(q, r);
  }

  lemma FactorBounds(p: real, q: real, r: real)
    requires Noise(q, r) && p >= 0.0
    ensures 0.0 < r / (p + q + r) <= Rate(q, r)
  {
  }

  lemma RatePositive(q: real, r: real)
    requires Noise(q, r)
    ensures Rate(q, r) > 0.0 && RateSquared(q, r) == Rate(q, r) * Rate(q, r) > 0.0
  {
  }

  /** The steady state is approached geometrically and never crossed. */
  lemma {:induction false} CovarianceConverges(q: real, r: real, n: nat)
    requires Noise(q, r)
    ensures var f, start := Steady(Covariance(q, r, n), q, r), Steady(1.0, q, r);
            && (start >= 0.0 ==> f >= 0.0)
            && (start <= 0.0 ==> f <= 0.0)
            && Abs(f) <= Power(RateSquared(q, r), n) * Abs(start)
  {
    hide Steady, NextCovariance, RateSquared;
    if n == 0 {
      assert Power(RateSquared(q, r), 0) == 1.0;
    } else {
      CovarianceConverges(q, r, n - 1);
      var before := Covariance(q, r, n - 1);
      ContractionStep(before, q, r);
      var f, f' := Steady(before, q, r), Steady(Covariance(q, r, n), q, r);
      GeometricStep(RateSquared(q, r), n - 1, Abs(f'), Abs(f), Abs(Steady(1.0, q, r)));
    }
  }

  /**
    In every run the covariance is positive, below r from the first update on, and moves
    towards the steady state with every reading, from the side it started on.
  */
  lemma CovarianceMonotone(q: real, r: real, n: nat)
    requires Noise(q, r)
    ensures var p, next := Covariance(q, r, n), Covariance(q, r, n + 1);
            && 0.0 < next < r
            && (Steady(1.0, q, r) >= 0.0 ==> next <= p)
            && (Steady(1.0, q, r) <= 0.0 ==> next >= p)
  {
    hide Steady, NextCovariance;
    CovarianceConverges(q, r, n);
    MonotoneStep(Covariance(q, r, n), q, r);
  }

  lemma MonotoneStep(p: real, q: real, r: real)
    requires Noise(q, r) && p >= 0.0
    ensures var next := NextCovariance(p, q, r);
            && (Steady(p, q, r) >= 0.0 ==> next <= p)
            && (Steady(p, q, r) <= 0.0 ==> next >= p)
  {
  }

  /** Every estimate lies between the smallest and the largest number since the reset. */
  lemma {:induction false} EstimateStaysInRange(q: real, r: real, values: seq<real>, low: real, high: real)
    requires Noise(q, r) && |values| > 0 && Bounded(values, low, high)
    ensures low <= Track(q, r, values).x <= high
  {
    if |values| > 1 {
      var prefix := values[..|values| - 1];
      EstimateStaysInRange(q, r, prefix, low, high);
      UpdateStaysInRange(Track(q, r, prefix), q, r, values[|values| - 1], low, high);
    }
  }

  lemma UpdateStaysInRange(e: Estimate, q: real, r: real, value: real, low: real, high: real)
    requires Noise(q, r) && e.p >= 0.0
    requires low <= e.x <= high && low <= value <= high
    ensures low <= Update(e, q, r, value).x <= high
  {
    GainBounds(e.p, q, r);
    var k := Gain(e.p, q, r);
    Blend(k, value, e.x, low, high);
    AsBlend(k, e.x, value);
  }

  lemma AsBlend(k: real, x: real, value: real)
    ensures x + k * (value - x) == k * value + (1.0 - k) * x
  {
  }

  /** On a constant input the distance shrinks at least by r / (q + r) a reading. */
  lemma {:induction false} EstimateConverges(q: real, r: real, start: real, c: real, n: nat)
    requires Noise(q, r)
    ensures Abs(Track(q, r, [start] + Repeat(c, n)).x - c) <= Power(Rate(q, r), n) * Abs(start - c)
  {
    hide Rate, Update;
    var values := [start] + Repeat(c, n);
    if n > 0 {
      var prefix := [start] + Repeat(c, n - 1);
      assert values[..|values| - 1] == prefix;
      EstimateConverges(q, r, start, c, n - 1);
      var before := Track(q, r, prefix);
      UpdateShrinks(before, q, r, c);
      GeometricStep(Rate(q, r), n - 1, Abs(Update(before, q, r, c).x - c), Abs(before.x - c), Abs(start - c));
    }
  }

  lemma UpdateShrinks(e: Estimate, q: real, r: real, c: real)
    requires Noise(q, r) && e.p >= 0.0
    ensures Rate(q, r) > 0.0
    ensures Abs(Update(e, q, r, c).x - c) <= Rate(q, r) * Abs(e.x - c)
  {
  }

  /** What is left of the distance to a constant input after n readings: the product of the noise shares. */
  function Remaining(q: real, r: real, n: nat): real
    requires Noise(q, r)
  {
    if n == 0 then 1.0 else Remaining(q, r, n - 1) * (r / (Covariance(q, r, n - 1) + q + r))
  }

  /** On a constant input the distance shrinks by exactly that product. */
  lemma {:induction false} EstimateDistanceExact(q: real, r: real, start: real, c: real, n: nat)
    requires Noise(q, r)
    ensures Track(q, r, [start] + Repeat(c, n)).x - c == Remaining(q, r, n) * (start - c)
  {
    hide Update, Covariance;
    var values := [start] + Repeat(c, n);
    if n > 0 {
      var prefix := [start] + Repeat(c, n - 1);
      assert values[..|values| - 1] == prefix;
      EstimateDistanceExact(q, r, start, c, n - 1);
      CovarianceIgnoresReadings(q, r, prefix);
      var before := Track(q, r, prefix);
      DistanceStep(before, q, r, c);
      Swap(Remaining(q, r, n - 1), start - c, r / (before.p + q + r));
    }
  }

  lemma DistanceStep(e: Estimate, q: real, r: real, c: real)
    requires Noise(q, r) && e.p >= 0.0
    ensures Update(e, q, r, c).x - c == (e.x - c) * (r / (e.p + q + r))
  {
    var k := Gain(e.p, q, r);
    GainBounds(e.p, q, r);
    assert e.x + k * (c - e.x) - c == (e.x - c) * (1.0 - k);
  }

  class KalmanFilter {
    const q: real
    const r: real
    var initialized: bool
    var x: Option<real>
    var p: real
    ghost var run: seq<string>      // what was filtered since the last reset

    ghost predicate Valid()
      reads this
    {
      && Noise(q, r)
      && initialized == (|Numbers(run)| > 0)
      && (if initialized then
            x.Some? && Estimate(x.value, p) == Track(q, r, Numbers(run))
          else x == None && p == 1.0)
    }

    constructor (q: real, r: real)
      ensures Valid() && run == []
      ensures this.q == (if q < 0.0001 then 0.0001 else q) && this.r == (if r < 0.0001 then 0.0001 else r)
    {
      this.q := Max(FLOOR, q);
      this.r := Max(FLOOR, r);
      initialized := false;
      x := None;
      p := 1.0;
      run := [];
    }

    method Filter(value: string) returns (text: string, numeric: Option<real>)
      requires Valid()
      modifies this
      ensures Valid() && run == old(run) + [value]
      ensures Parse(value).None? ==> text == value && numeric == None && x == old(x) && p == old(p)
      ensures Parse(value).Some? ==>
                numeric == Some(Track(q, r, Numbers(run)).x) && text == FormatTenths(numeric.value)
      ensures Parse(value).Some? ==> x == numeric
      ensures Parse(value).Some? && old(x).None? ==> numeric == Parse(value) && p == 1.0
      ensures Parse(value).Some? && old(x).Some? ==>
                Corrects(old(x.value), old(p) + q, r, Parse(value).value, numeric.value, p)
    {
      hide Parse, FormatTenths, Corrects, Update, Gain, NextCovariance;
      run := run + [value];
      assert run[..|run| - 1] == old(run);
      var parsed := Parse(value);
      if parsed.None? {
        return value, None;
      }
      assert Numbers(run)[..|Numbers(run)| - 1] == Numbers(old(run));
      if !initialized {
        x := parsed;
        p := 1.0;
        initialized := true;
        return FormatTenths(parsed.value), parsed;
      }
      ghost var values := Numbers(run);
      assert values[|values| - 1] == parsed.value && |values| > 1;
      assert Track(q, r, values) == Update(Estimate(x.value, p), q, r, parsed.value);
      UpdateCorrects(Estimate(x.value, p), q, r, parsed.value);
      var predicted := p + q;
      var k := predicted / (predicted + r);
      UpdateIs(Estimate(x.value, p), q, r, parsed.value, predicted, k);
      x := Some(x.value + k * (parsed.value - x.value));
      p := (1.0 - k) * predicted;
      return FormatTenths(x.value), x;
    }

    method Reset()
      requires Valid()
      modifies this
      ensures Valid() && run == [] && x == None && p == 1.0
    {
      initialized := false;
      x := None;
      p := 1.0;
      run := [];
    }
  }
}

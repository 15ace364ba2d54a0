/**
  The hysteresis quantizer of the sanitizer, on its own: half-up rounding to a grid, with the
  current bin kept until the reading has left it by more than the hysteresis margin.
*/
module Quantizer {
  import opened Basics

  datatype Quantized = Quantized(bin: Option<real>, value: real)

  /** Nearest grid index, halves rounding up. */
  function RoundHalfUp(value: real, step: real): int
    requires step > 0.0
  {
    (value / step + 0.5).Floor
  }

  function Quantize(step: real, hysteresis: real, bin: Option<real>, value: real): Quantized {
    if step <= 0.0 then Quantized(bin, value)
    else if bin.Some? && !Leaves(step, hysteresis, bin.value, value) then Quantized(bin, bin.value)
    else
      var q := RoundHalfUp(value, step) as real * step;
      Quantized(Some(q), q)
  }

  predicate Leaves(step: real, hysteresis: real, bin: real, value: real) {
    Abs(value - bin) > step / 2.0 + hysteresis
  }

  /** The bin held after a run of readings. */
  function BinAfter(step: real, hysteresis: real, bin: Option<real>, values: seq<real>): Option<real> {
    if |values| == 0 then bin
    else
      var before := BinAfter(step, hysteresis, bin, values[..|values| - 1]);
      Quantize(step, hysteresis, before, values[|values| - 1]).bin
  }

  // ---------------------------------------------------------------- the grid

  /** The k-th multiple of the step, reached by stepping so that grid facts stay linear. */
  ghost function Point(k: int, step: real): real
    decreases if k < 0 then -k else k
  {
    if k == 0 then 0.0
    else if k > 0 then Point(k - 1, step) + step
    else Point(k + 1, step) - step
  }

  lemma {:induction false} PointIsMultiple(k: int, step: real)
    ensures Point(k, step) == k as real * step
    decreases if k < 0 then -k else k
  {
    if k > 0 {
      PointIsMultiple(k - 1, step);
      assert k as real * step == (k - 1) as real * step + step;
    } else if k < 0 {
      PointIsMultiple(k + 1, step);
      assert k as real * step == (k + 1) as real * step - step;
    }
  }

  lemma {:induction false} PointGap(j: int, k: int, step: real)
    requires j < k && step > 0.0
    ensures Point(k, step) == Point(j, step) + step || Point(k, step) >= Point(j, step) + step + step
    ensures k > j + 1 ==> Point(k, step) >= Point(j, step) + step + step
    decreases k - j
  {
    assert Point(j + 1, step) == Point(j, step) + step;
    if k > j + 1 {
      PointGap(j + 1, k, step);
    }
  }

  /** The half-open cell of readings that round to grid index k. */
  ghost predicate InCell(value: real, k: int, step: real) {
    Point(k, step) - step / 2.0 <= value < Point(k, step) + step / 2.0
  }

  lemma ScaleUp(x: real, y: real, step: real)
    requires step > 0.0
    ensures x <= y ==> x * step <= y * step
    ensures x < y ==> x * step < y * step
  {
  }

  /** How far a value lies above a multiple of the step, kept as one number. */
  lemma Residue(value: real, scaled: real, x: real, width: real, step: real) returns (above: real)
    requires step > 0.0 && value == scaled * step
    requires -width <= scaled - x < width
    ensures above == value - x * step
    ensures -(width * step) <= above < width * step
  {
    above := value - x * step;
    assert above == (scaled - x) * step;
    ScaleUp(-width, scaled - x, step);
    ScaleUp(scaled - x, width, step);
    assert -width * step == -(width * step);
  }

  lemma ScaledCell(value: real, scaled: real, k: int, step: real)
    requires step > 0.0 && value == scaled * step
    requires k as real - 0.5 <= scaled < k as real + 0.5
    ensures InCell(value, k, step)
  {
    PointIsMultiple(k, step);
    var above := Residue(value, scaled, k as real, 0.5, step);
    assert 0.5 * step == step / 2.0;
  }

  lemma RoundInCell(value: real, step: real)
    requires step > 0.0
    ensures InCell(value, RoundHalfUp(value, step), step)
  {
    ScaledCell(value, value / step, RoundHalfUp(value, step), step);
  }

  lemma CellsDisjoint(value: real, j: int, k: int, step: real)
    requires step > 0.0 && InCell(value, j, step) && InCell(value, k, step)
    ensures j == k
  {
    assert step / 2.0 + step / 2.0 == step;
    if j < k { PointGap(j, k, step); }
    if k < j { PointGap(k, j, step); }
  }

  lemma RoundUnique(value: real, k: int, step: real)
    requires step > 0.0 && InCell(value, k, step)
    ensures RoundHalfUp(value, step) == k
  {
    RoundInCell(value, step);
    CellsDisjoint(value, RoundHalfUp(value, step), k, step);
  }

  ghost predicate OnGrid(x: real, step: real) {
    exists k: int :: x == Point(k, step)
  }

  /** Leaving the bin re-rounds to the cell of the reading. */
  lemma QuantizeMoves(step: real, hysteresis: real, bin: Option<real>, value: real) returns (k: int)
    requires step > 0.0
    requires bin.None? || Leaves(step, hysteresis, bin.value, value)
    ensures InCell(value, k, step)
    ensures Quantize(step, hysteresis, bin, value) == Quantized(Some(Point(k, step)), Point(k, step))
  {
    k := RoundHalfUp(value, step);
    RoundInCell(value, step);
    PointIsMultiple(k, step);
    var r := Quantize(step, hysteresis, bin, value);
    assert r.value == k as real * step;
  }

  /** The held bin is on the grid and the emitted value is close to the reading. */
  lemma QuantizeSound(step: real, hysteresis: real, bin: Option<real>, value: real)
    requires step > 0.0 && hysteresis >= 0.0
    requires bin.Some? ==> OnGrid(bin.value, step)
    ensures var r := Quantize(step, hysteresis, bin, value);
            && r.bin == Some(r.value)
            && OnGrid(r.value, step)
            && Abs(r.value - value) <= step / 2.0 + hysteresis
  {
    if bin.None? || Leaves(step, hysteresis, bin.value, value) {
      var k := QuantizeMoves(step, hysteresis, bin, value);
    }
  }

  /** Over any run of readings the bin stays on the grid and near the latest reading. */
  lemma {:induction false} BinStaysOnGrid(step: real, hysteresis: real, bin: Option<real>, values: seq<real>)
    requires step > 0.0 && hysteresis >= 0.0
    requires bin.Some? ==> OnGrid(bin.value, step)
    ensures var b := BinAfter(step, hysteresis, bin, values);
            && (b.Some? ==> OnGrid(b.value, step))
            && (|values| > 0 ==> b.Some? && Abs(b.value - values[|values| - 1]) <= step / 2.0 + hysteresis)
  {
    if |values| > 0 {
      var prefix := values[..|values| - 1];
      BinStaysOnGrid(step, hysteresis, bin, prefix);
      QuantizeSound(step, hysteresis, BinAfter(step, hysteresis, bin, prefix), values[|values| - 1]);
    }
  }

  // ---------------------------------------------------------------- no flapping

  /** All readings of the run lie in one window. */
  predicate Within(values: seq<real>, low: real, width: real) {
    forall i | 0 <= i < |values| :: low <= values[i] <= low + width
  }

  /** The run starts by leaving bin b and spreads over at most twice the margin. */
  ghost predicate LeavesWithin(step: real, hysteresis: real, b: int, values: seq<real>, low: real) {
    && |values| > 0
    && Within(values, low, 2.0 * hysteresis)
    && Leaves(step, hysteresis, Point(b, step), values[0])
  }

  /** Side of the abandoned bin on which the current bin stays, and how far the window reaches. */
  ghost predicate Escaped(step: real, hysteresis: real, b: int, low: real, c: int) {
    var home, now, half := Point(b, step), Point(c, step), step / 2.0;
    || (c > b && low > home + half - hysteresis && now - half <= low + 2.0 * hysteresis)
    || (c < b && low + 2.0 * hysteresis < home - half + hysteresis && now + half > low)
  }

  lemma FirstEscape(step: real, hysteresis: real, b: int, low: real, c: int, value: real)
    requires step > 0.0 && 0.0 <= hysteresis <= step / 2.0
    requires low <= value <= low + 2.0 * hysteresis
    requires InCell(value, c, step) && Leaves(step, hysteresis, Point(b, step), value)
    ensures Escaped(step, hysteresis, b, low, c)
  {
    assert step / 2.0 + step / 2.0 == step;
    if c < b { PointGap(c, b, step); }
    if c > b { PointGap(b, c, step); }
  }

  lemma StayEscaped(step: real, hysteresis: real, b: int, low: real, c: int, r: int, value: real)
    requires step > 0.0 && 0.0 <= hysteresis <= step / 2.0
    requires low <= value <= low + 2.0 * hysteresis
    requires Escaped(step, hysteresis, b, low, c)
    requires InCell(value, r, step) && Leaves(step, hysteresis, Point(c, step), value)
    ensures Escaped(step, hysteresis, b, low, r)
  {
    assert step / 2.0 + step / 2.0 == step;
    if r < b { PointGap(r, b, step); }
    if r > b { PointGap(b, r, step); }
    if c > b { PointGap(b, c, step); } else { PointGap(c, b, step); }
  }

  /**
    Once the readings have left a bin they cannot bring it back without spreading over more
    than twice the hysteresis, however many bins they visit in between.
  */
  lemma {:induction false} NoReturn(step: real, hysteresis: real, b: int, values: seq<real>, low: real) returns (c: int)
    requires step > 0.0 && 0.0 <= hysteresis <= step / 2.0
    requires LeavesWithin(step, hysteresis, b, values, low)
    ensures BinAfter(step, hysteresis, Some(Point(b, step)), values) == Some(Point(c, step))
    ensures Escaped(step, hysteresis, b, low, c)
    ensures Point(c, step) != Point(b, step)
  {
    var last, prefix := values[|values| - 1], values[..|values| - 1];
    var home := Some(Point(b, step));
    if |values| == 1 {
      assert BinAfter(step, hysteresis, home, prefix) == home;
      c := QuantizeMoves(step, hysteresis, home, last);
      FirstEscape(step, hysteresis, b, low, c, last);
    } else {
      var d := NoReturn(step, hysteresis, b, prefix, low);
      if Leaves(step, hysteresis, Point(d, step), last) {
        c := QuantizeMoves(step, hysteresis, Some(Point(d, step)), last);
        StayEscaped(step, hysteresis, b, low, d, c, last);
      } else {
        c := d;
      }
    }
    if c < b { PointGap(c, b, step); } else { PointGap(b, c, step); }
  }

  /** No run inside one window of width 2 * hysteresis leaves a bin and comes back to it. */
  ghost predicate FlapFree(step: real, hysteresis: real) {
    forall b: int, values: seq<real>, low: real | LeavesWithin(step, hysteresis, b, values, low)
      :: BinAfter(step, hysteresis, Some(Point(b, step)), values) != Some(Point(b, step))
  }

  lemma FlapWitness(step: real, hysteresis: real, k: int, v: real, w: real)
    requires step > 0.0 && hysteresis >= 0.0
    requires w <= v <= w + 2.0 * hysteresis
    requires Leaves(step, hysteresis, 0.0, v) && InCell(v, k, step)
    requires Leaves(step, hysteresis, Point(k, step), w) && InCell(w, 0, step)
    ensures !FlapFree(step, hysteresis)
  {
    var values := [v, w];
    var home := Some(Point(0, step));
    var j := QuantizeMoves(step, hysteresis, home, v);
    CellsDisjoint(v, j, k, step);
    var i := QuantizeMoves(step, hysteresis, Some(Point(k, step)), w);
    CellsDisjoint(w, i, 0, step);
    assert values[..1] == [v] && [v][..0] == [];
    assert BinAfter(step, hysteresis, home, []) == home;
    assert BinAfter(step, hysteresis, home, [v]) == Some(Point(k, step));
    assert LeavesWithin(step, hysteresis, 0, values, w);
  }

  /** With a margin wider than half a step two close readings do make the bin flap. */
  lemma WideHysteresisFlaps(step: real, hysteresis: real)
    requires step > 0.0 && hysteresis > step / 2.0
    ensures !FlapFree(step, hysteresis)
  {
    if hysteresis < step {
      assert Point(2, step) == Point(1, step) + step && Point(1, step) == Point(0, step) + step;
      FlapWitness(step, hysteresis, 2, step + step / 2.0, step - hysteresis);
    } else {
      var k := WholeSteps(hysteresis, step);
      var rest := Point(k, step) - hysteresis;
      FlapWitness(step, hysteresis, k, step / 2.0 + hysteresis + rest / 2.0, rest / 2.0 - step / 2.0);
    }
  }

  lemma WholeSteps(x: real, step: real) returns (k: int)
    requires step > 0.0 && x >= step
    ensures step <= Point(k, step) - step <= x < Point(k, step)
  {
    k := 1 + (x / step).Floor;
    FloorScaled(x, x / step, step, k - 1);
    assert k - 1 >= 0;
    assert Point(k, step) == Point(k - 1, step) + step;
    PointGap(0, k - 1, step);
  }

  lemma FloorScaled(x: real, scaled: real, step: real, m: int)
    requires step > 0.0 && x >= step && x == scaled * step
    requires m as real <= scaled < m as real + 1.0
    ensures m >= 1 && Point(m, step) <= x < Point(m, step) + step
  {
    PointIsMultiple(m, step);
    var above := Residue(x, scaled, m as real, 1.0, step);
    ScaleUp(m as real, scaled, step);
    if m < 1 {
      ScaleUp(scaled, 1.0, step);
    }
  }

  /** The margin suppresses flapping exactly when it is at most half a step. */
  lemma FlapFreeIff(step: real, hysteresis: real)
    requires step > 0.0 && hysteresis >= 0.0
    ensures FlapFree(step, hysteresis) <==> hysteresis <= step / 2.0
  {
    if hysteresis <= step / 2.0 {
      forall b: int, values: seq<real>, low: real | LeavesWithin(step, hysteresis, b, values, low)
        ensures BinAfter(step, hysteresis, Some(Point(b, step)), values) != Some(Point(b, step))
      {
        var c := NoReturn(step, hysteresis, b, values, low);
      }
    } else {
      WideHysteresisFlaps(step, hysteresis);
    }
  }
}

/**
  What the sanitizer emits, over whole runs of one channel: the text carries the quantized value
  of the stored reading, and the quantizer's bin follows the stored readings.
*/
module SanitizerOutput {
  import opened Basics
  import opened Readings
  import opened Quantizer
  import opened Sanitizer
  import opened GlitchRemoval

  /** The values the channel has stored, reading by reading. */
  function Stored(cfg: Config, run: seq<Input>): seq<real> {
    if |run| == 0 then []
    else
      var before := Stored(cfg, run[..|run| - 1]);
      match (Parse(run[|run| - 1].raw), StateAfter(cfg, run).prev)
      case (Some(_), Some(v)) => before + [v]
      case _ => before
  }

  /** What one reading stores and emits, whatever the guard made of it. */
  lemma StepOutput(cfg: Config, c: Channel, raw: string, ts: real, v: real)
    requires Parse(raw) == Some(v)
    ensures var o := ChannelStep(cfg, c, raw, ts);
            && o.channel.prev.Some?
            && var q := Quantize(cfg.step, cfg.hysteresis, c.bin, o.channel.prev.value);
               && o.channel.bin == q.bin
               && o.text == if q.value == v then raw else FormatInteger(q.value)
  {
    hide Parse, Quantize, FormatInteger, Judge, Smoothed, NextWindow;
  }

  lemma LastInput(cfg: Config, run: seq<Input>)
    requires |run| > 0
    ensures var last := run[|run| - 1];
            && LastStep(cfg, run) == ChannelStep(cfg, StateAfter(cfg, run[..|run| - 1]), last.raw, last.ts)
            && StateAfter(cfg, run) == LastStep(cfg, run).channel
  {
    hide ChannelStep;
  }

  /** The bin after a run is the quantizer's, run over the stored values from no bin. */
  lemma {:induction false} BinFollows(cfg: Config, run: seq<Input>)
    ensures StateAfter(cfg, run).bin == BinAfter(cfg.step, cfg.hysteresis, None, Stored(cfg, run))
  {
    hide Parse, ChannelStep, LastStep, Quantize;
    if |run| > 0 {
      var prefix, last := run[..|run| - 1], run[|run| - 1];
      BinFollows(cfg, prefix);
      LastInput(cfg, run);
      match Parse(last.raw) {
        case None => MarkerPasses(cfg, run);
        case Some(v) =>
          StepOutput(cfg, StateAfter(cfg, prefix), last.raw, last.ts, v);
          var stored := Stored(cfg, run);
          assert stored[..|stored| - 1] == Stored(cfg, prefix);
      }
    }
  }

  /** Error markers and unreadable texts come out as they went in and change nothing. */
  lemma MarkerPasses(cfg: Config, run: seq<Input>)
    requires |run| > 0 && Parse(run[|run| - 1].raw).None?
    ensures LastStep(cfg, run).text == run[|run| - 1].raw
    ensures StateAfter(cfg, run) == StateAfter(cfg, run[..|run| - 1])
  {
    hide Parse, Settle;
  }

  /** The text stands for the value: it is the reading's own if that already does. */
  ghost predicate Carries(text: string, raw: string, b: real) {
    && (Parse(raw) == Some(b) ==> text == raw)
    && (Parse(raw) != Some(b) ==> |text| == 6)
    && Parse(text).Some?
    && (Parse(text) == Some(b) <==> Parse(raw) == Some(b) || (IsInteger(b) && -99999.0 <= b <= 99999.0))
  }

  lemma EmittedCarries(raw: string, v: real, b: real)
    requires Parse(raw) == Some(v)
    ensures Carries(if b == v then raw else FormatInteger(b), raw, b)
  {
    hide Parse, FormatInteger;
    FormatIntegerReadsBackIff(b);
    var n := FormatIntegerReads(b);
  }

  /**
    With quantization on, after any reading of any run: the bin is a multiple of the step within
    half a step plus the hysteresis of the stored value, and the emitted text carries it.
  */
  lemma EmittedTextIsQuantized(cfg: Config, run: seq<Input>)
    requires cfg.step > 0.0 && cfg.hysteresis >= 0.0
    requires |run| > 0 && Parse(run[|run| - 1].raw).Some?
    ensures var after := StateAfter(cfg, run);
            && after.prev.Some? && after.bin.Some? && OnGrid(after.bin.value, cfg.step)
            && -(cfg.step / 2.0 + cfg.hysteresis) <= after.bin.value - after.prev.value <= cfg.step / 2.0 + cfg.hysteresis
            && Carries(LastStep(cfg, run).text, run[|run| - 1].raw, after.bin.value)
  {
    hide Parse, ChannelStep, LastStep, FormatInteger, Quantize, OnGrid, Carries, BinAfter, Stored;
    var prefix, last := run[..|run| - 1], run[|run| - 1];
    var before := StateAfter(cfg, prefix);
    LastInput(cfg, run);
    StepOutput(cfg, before, last.raw, last.ts, Parse(last.raw).value);
    BinFollows(cfg, prefix);
    BinStaysOnGrid(cfg.step, cfg.hysteresis, None, Stored(cfg, prefix));
    QuantizeSound(cfg.step, cfg.hysteresis, before.bin, StateAfter(cfg, run).prev.value);
    EmittedCarries(last.raw, Parse(last.raw).value, StateAfter(cfg, run).bin.value);
  }

  /** With quantization off the text carries the stored value itself. */
  lemma EmittedTextIsStored(cfg: Config, run: seq<Input>)
    requires cfg.step <= 0.0 && |run| > 0 && Parse(run[|run| - 1].raw).Some?
    ensures StateAfter(cfg, run).prev.Some?
    ensures Carries(LastStep(cfg, run).text, run[|run| - 1].raw, StateAfter(cfg, run).prev.value)
  {
    hide Parse, ChannelStep, LastStep, FormatInteger, Carries;
    var last := run[|run| - 1];
    LastInput(cfg, run);
    StepOutput(cfg, StateAfter(cfg, run[..|run| - 1]), last.raw, last.ts, Parse(last.raw).value);
    EmittedCarries(last.raw, Parse(last.raw).value, StateAfter(cfg, run).prev.value);
  }

  lemma {:induction false} PointOfIntegerStep(k: int, step: real)
    requires IsInteger(step)
    ensures IsInteger(Point(k, step))
    decreases if k < 0 then -k else k
  {
    if k > 0 {
      PointOfIntegerStep(k - 1, step);
      SumIsInteger(Point(k - 1, step), step);
    } else if k < 0 {
      PointOfIntegerStep(k + 1, step);
      SumIsInteger(Point(k + 1, step), -step);
    }
  }

  lemma WholeIsInteger(x: real, n: int)
    requires x == n as real
    ensures IsInteger(x)
  {
  }

  lemma SumIsInteger(x: real, y: real)
    requires IsInteger(x) && (IsInteger(y) || IsInteger(-y))
    ensures IsInteger(x + y)
  {
    var a, b := x.Floor, if IsInteger(y) then y.Floor else -(-y).Floor;
    assert y == b as real;
    hide IsInteger;
    WholeIsInteger(x + y, a + b);
  }

  /** For integer steps every emitted text reads as the bin, as long as that fits five digits. */
  lemma IntegerStepsReadBack(cfg: Config, run: seq<Input>)
    requires cfg.step > 0.0 && IsInteger(cfg.step) && cfg.hysteresis >= 0.0
    requires |run| > 0 && Parse(run[|run| - 1].raw).Some?
    ensures StateAfter(cfg, run).bin.Some?
    ensures var b := StateAfter(cfg, run).bin.value;
            -99999.0 <= b <= 99999.0 ==> Parse(LastStep(cfg, run).text) == Some(b)
  {
    hide Parse, LastStep, IsInteger;
    EmittedTextIsQuantized(cfg, run);
    var b := StateAfter(cfg, run).bin.value;
    var k :| b == Point(k, cfg.step);
    PointOfIntegerStep(k, cfg.step);
  }
}

/**
  The loadcell sanitizer: per channel an optional median of three, the sign-continuity guard
  with its relatch streak, and the hysteresis quantizer.  The class updates the channel lists
  in place; the functions beside it say what one frame does to one channel.
*/
module Sanitizer {
  import opened Basics
  import opened Readings
  import opened Quantizer

  datatype Config = Config(
    enabled: bool,
    medianFilter: bool,
    tolerance: real,
    minMagnitude: real,
    relatchFrames: nat,
    staleness: real,
    step: real,
    hysteresis: real)

  predicate ValidConfig(cfg: Config) {
    && cfg.tolerance >= 0.0 && cfg.minMagnitude >= 0.0 && cfg.staleness >= 0.0
    && cfg.hysteresis >= 0.0 && cfg.relatchFrames >= 2
  }

  /** The shipped defaults. */
  const DEFAULTS := Config(true, false, 2.0, 5.0, 3, 2.0, 5.0, 1.0)

  const CHANNELS: nat := 10

  datatype Channel = Channel(
    window: seq<real>,
    prev: Option<real>,
    prevTs: real,
    streak: nat,
    bin: Option<real>)

  const BLANK := Channel([], None, 0.0, 0, None)

  /** What the guard made of one reading. */
  datatype Verdict = Marker | Plain | Corrected | Relatched

  datatype Outcome = Outcome(channel: Channel, text: string, verdict: Verdict)

  predicate Fresh(cfg: Config, c: Channel, ts: real) {
    ts - c.prevTs <= cfg.staleness
  }

  /** sorted([a, b, c])[1] */
  function Middle(a: real, b: real, c: real): real {
    Max(Min(a, b), Min(Max(a, b), c))
  }

  function NextWindow(cfg: Config, c: Channel, value: real, ts: real): (w: seq<real>)
    ensures |w| > 0
  {
    var kept := if Fresh(cfg, c, ts) then c.window else [];
    var grown := kept + [value];
    if |grown| > 3 then grown[1..] else grown
  }

  /** The reading the guard looks at. */
  function Smoothed(cfg: Config, c: Channel, value: real, ts: real): real {
    var w := NextWindow(cfg, c, value, ts);
    if cfg.medianFilter && |w| == 3 then Middle(w[0], w[1], w[2]) else value
  }

  /** A fresh, large enough, same-magnitude reading of the opposite sign. */
  predicate Inverted(cfg: Config, c: Channel, value: real, ts: real) {
    && c.prev.Some?
    && Fresh(cfg, c, ts)
    && value * c.prev.value < 0.0
    && Abs(value) >= cfg.minMagnitude
    && Abs(Abs(value) - Abs(c.prev.value)) <= cfg.tolerance
  }

  function Judge(cfg: Config, c: Channel, value: real, ts: real): Verdict {
    if !Inverted(cfg, c, value, ts) then Plain
    else if c.streak + 1 < cfg.relatchFrames then Corrected
    else Relatched
  }

  /** Store, quantize and print a judged reading. */
  function Settle(cfg: Config, c: Channel, raw: string, numeric: real, smoothed: real, verdict: Verdict, ts: real): Outcome {
    var value := if verdict == Corrected then -smoothed else smoothed;
    var q := Quantize(cfg.step, cfg.hysteresis, c.bin, value);
    Outcome(
      Channel(
        if cfg.medianFilter then NextWindow(cfg, c, numeric, ts) else c.window,
        Some(value), ts, if verdict == Corrected then c.streak + 1 else 0, q.bin),
      if q.value == numeric then raw else FormatInteger(q.value),
      verdict)
  }

  /** One reading through one channel. */
  function ChannelStep(cfg: Config, c: Channel, raw: string, ts: real): Outcome {
    match Parse(raw)
    case None => Outcome(c, raw, Marker)
    case Some(numeric) =>
      var smoothed := Smoothed(cfg, c, numeric, ts);
      Settle(cfg, c, raw, numeric, smoothed, Judge(cfg, c, smoothed, ts), ts)
  }

  lemma JudgeIgnoresWindow(cfg: Config, c: Channel, w: seq<real>, value: real, ts: real)
    ensures Judge(cfg, c.(window := w), value, ts) == Judge(cfg, c, value, ts)
  {
  }

  // ---------------------------------------------------------------- whole frames

  datatype Framed = Framed(channels: seq<Channel>, texts: seq<string>)

  /** One frame through all channels; readings beyond the channel count pass through. */
  function SanitizeFrame(cfg: Config, cs: seq<Channel>, values: seq<string>, ts: real): Framed {
    Framed(
      seq(|cs|, i requires 0 <= i < |cs| =>
        if i < |values| then ChannelStep(cfg, cs[i], values[i], ts).channel else cs[i]),
      seq(|values|, i requires 0 <= i < |values| =>
        if i < |cs| then ChannelStep(cfg, cs[i], values[i], ts).text else values[i]))
  }

  function BlankChannels(): seq<Channel> {
    seq(CHANNELS, _ => BLANK)
  }

  class LoadcellSanitizer {
    const cfg: Config
    const channels: nat
    var window: seq<seq<real>>
    var prev: seq<Option<real>>
    var prevTs: seq<real>
    var flipStreak: seq<nat>
    var prevBin: seq<Option<real>>
    var glitchCount: nat

    ghost predicate Valid()
      reads this
    {
      |window| == |prev| == |prevTs| == |flipStreak| == |prevBin| == channels
    }

    ghost function At(i: nat): Channel
      requires Valid() && i < channels
      reads this
    {
      Channel(window[i], prev[i], prevTs[i], flipStreak[i], prevBin[i])
    }

    ghost function State(): (s: seq<Channel>)
      requires Valid()
      reads this
      ensures |s| == channels
      ensures forall i | 0 <= i < channels :: s[i] == At(i)
    {
      StateUpTo(channels)
    }

    ghost function StateUpTo(n: nat): (s: seq<Channel>)
      requires Valid() && n <= channels
      reads this
      ensures |s| == n
      ensures forall i | 0 <= i < n :: s[i] == At(i)
    {
      if n == 0 then [] else StateUpTo(n - 1) + [At(n - 1)]
    }

    constructor (cfg: Config, channels: nat)
      ensures Valid() && this.cfg == cfg && this.channels == channels
      ensures State() == seq(channels, _ => BLANK)
      ensures glitchCount == 0
    {
      this.cfg := cfg;
      this.channels := channels;
      window := seq(channels, _ => []);
      prev := seq(channels, _ => None);
      prevTs := seq(channels, _ => 0.0);
      flipStreak := seq(channels, _ => 0);
      prevBin := seq(channels, _ => None);
      glitchCount := 0;
    }

    method Reset()
      requires Valid()
      modifies this
      ensures Valid() && State() == seq(channels, _ => BLANK)
      ensures glitchCount == old(glitchCount)
    {
      window := seq(channels, _ => []);
      prev := seq(channels, _ => None);
      prevTs := seq(channels, _ => 0.0);
      flipStreak := seq(channels, _ => 0);
      prevBin := seq(channels, _ => None);
    }

    /** Emits the quantized value and keeps the bin of the one channel. */
    method QuantizeChannel(ch: nat, value: real) returns (quantized: real)
      requires Valid() && ch < channels
      modifies `prevBin
      ensures Valid()
      ensures var q := Quantizer.Quantize(cfg.step, cfg.hysteresis, old(prevBin[ch]), value);
              quantized == q.value && prevBin == old(prevBin)[ch := q.bin]
    {
      var step := cfg.step;
      if step <= 0.0 {
        return value;
      }
      var bin := prevBin[ch];
      if bin.Some? && Abs(value - bin.value) <= step / 2.0 + cfg.hysteresis {
        return bin.value;
      }
      quantized := RoundHalfUp(value, step) as real * step;
      prevBin := prevBin[ch := Some(quantized)];
    }

    /** The optional median layer of channel i. */
    method Smooth(i: nat, numeric: real, ts: real) returns (value: real)
      requires Valid() && i < channels
      modifies `window
      ensures Valid()
      ensures value == Smoothed(cfg, old(At(i)), numeric, ts)
      ensures window == old(window)[i := if cfg.medianFilter then NextWindow(cfg, old(At(i)), numeric, ts)
                                         else old(window)[i]]
    {
      value := numeric;
      if cfg.medianFilter {
        var w := if ts - prevTs[i] <= cfg.staleness then window[i] else [];
        w := w + [numeric];
        if |w| > 3 {
          w := w[1..];
        }
        if |w| == 3 {
          value := Middle(w[0], w[1], w[2]);
        }
        window := window[i := w];
      }
    }

    /** The sign-continuity guard of channel i. */
    method Guard(i: nat, smoothed: real, ts: real) returns (value: real)
      requires Valid() && i < channels
      modifies `flipStreak, `glitchCount
      ensures Valid()
      ensures var verdict := Judge(cfg, old(At(i)), smoothed, ts);
              && value == (if verdict == Corrected then -smoothed else smoothed)
              && flipStreak == old(flipStreak)[i := if verdict == Corrected then old(flipStreak[i]) + 1 else 0]
              && glitchCount == old(glitchCount) + (if verdict == Corrected then 1 else 0)
    {
      value := smoothed;
      var last := prev[i];
      if last.Some? && ts - prevTs[i] <= cfg.staleness && value * last.value < 0.0
         && Abs(value) >= cfg.minMagnitude && Abs(Abs(value) - Abs(last.value)) <= cfg.tolerance
      {
        var streak := flipStreak[i] + 1;
        if streak < cfg.relatchFrames {
          value := -value;
          glitchCount := glitchCount + 1;
        } else {
          streak := 0;
        }
        flipStreak := flipStreak[i := streak];
      } else {
        flipStreak := flipStreak[i := 0];
      }
    }

    /** One reading through channel i, in place. */
    method SanitizeChannel(i: nat, raw: string, ts: real) returns (text: string)
      requires Valid() && i < channels
      modifies this
      ensures Valid()
      ensures var o := ChannelStep(cfg, old(At(i)), raw, ts);
              && text == o.text && At(i) == o.channel
              && glitchCount == old(glitchCount) + (if o.verdict == Corrected then 1 else 0)
      ensures forall j | 0 <= j < channels && j != i :: At(j) == old(At(j))
      ensures Parse(raw).None? ==> text == raw
    {
      hide Parse, FormatInteger, Quantizer.Quantize, NextWindow, Smoothed, Inverted;
      var parsed := Parse(raw);
      if parsed.None? {
        return raw;
      }
      var smoothed := Smooth(i, parsed.value, ts);
      ghost var verdict := Judge(cfg, At(i), smoothed, ts);
      assert verdict == Judge(cfg, old(At(i)), smoothed, ts) by {
        assert At(i) == old(At(i)).(window := window[i]);
        JudgeIgnoresWindow(cfg, old(At(i)), window[i], smoothed, ts);
      }
      var value := Guard(i, smoothed, ts);
      prev := prev[i := Some(value)];
      prevTs := prevTs[i := ts];
      var quantized := QuantizeChannel(i, value);
      text := if quantized == parsed.value then raw else FormatInteger(quantized);
      ghost var o := Settle(cfg, old(At(i)), raw, parsed.value, smoothed, verdict, ts);
      assert At(i) == o.channel && text == o.text;
    }

    /** One frame: every channel with a reading takes one step, the others are untouched. */
    method Sanitize(values: seq<string>, ts: real) returns (out: seq<string>)
      requires Valid()
      modifies this
      ensures Valid()
      ensures Framed(State(), out) == SanitizeFrame(cfg, old(State()), values, ts)
      ensures |out| == |values|
      ensures forall i | 0 <= i < |values| && (i >= channels || Parse(values[i]).None?) :: out[i] == values[i]
    {
      hide ChannelStep, Parse;
      out := [];
      var n := if |values| < channels then |values| else channels;
      for i := 0 to n
        invariant Valid() && |out| == i
        invariant forall j | 0 <= j < i ::
          var o := ChannelStep(cfg, old(At(j)), values[j], ts);
          At(j) == o.channel && out[j] == o.text
        invariant forall j | 0 <= j < i && Parse(values[j]).None? :: out[j] == values[j]
        invariant forall j | i <= j < channels :: At(j) == old(At(j))
      {
        var text := SanitizeChannel(i, values[i], ts);
        out := out + [text];
      }
      out := out + values[n..];
      assert State() == SanitizeFrame(cfg, old(State()), values, ts).channels;
    }
  }
}

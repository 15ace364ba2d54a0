/**
  What the sanitizer is for, as statements about whole runs of one channel: a run whose signs
  were corrupted in flight against the run as the scale meant it, and the exact life of the
  relatch streak.  Runs are built from the blank channel, reading by reading.
*/
module GlitchRemoval {
  import opened Basics
  import opened Readings
  import opened Quantizer
  import opened Sanitizer

  datatype Input = Input(raw: string, ts: real)

  function StateAfter(cfg: Config, run: seq<Input>): Channel
    decreases |run|, 1
  {
    if |run| == 0 then BLANK else LastStep(cfg, run).channel
  }

  /** What the last reading of a run did. */
  function LastStep(cfg: Config, run: seq<Input>): Outcome
    requires |run| > 0
    decreases |run|, 0
  {
    var last := run[|run| - 1];
    ChannelStep(cfg, StateAfter(cfg, run[..|run| - 1]), last.raw, last.ts)
  }

  function Outputs(cfg: Config, run: seq<Input>): (texts: seq<string>)
    ensures |texts| == |run|
  {
    if |run| == 0 then [] else Outputs(cfg, run[..|run| - 1]) + [LastStep(cfg, run).text]
  }

  lemma SignProduct(a: real, b: real)
    ensures a * b < 0.0 <==> (a < 0.0 < b || b < 0.0 < a)
  {
  }

  /** Without the median a reading goes straight to the guard. */
  lemma GuardOnlyStep(cfg: Config, c: Channel, raw: string, ts: real, v: real)
    requires !cfg.medianFilter && Parse(raw) == Some(v)
    ensures ChannelStep(cfg, c, raw, ts) == Settle(cfg, c, raw, v, v, Judge(cfg, c, v, ts), ts)
  {
  }

  // ---------------------------------------------------------------- relatch streak

  /** Number of corrections at the end of the run, markers skipped. */
  ghost function TrailingCorrections(cfg: Config, run: seq<Input>): nat {
    if |run| == 0 then 0
    else
      var prefix := run[..|run| - 1];
      match LastStep(cfg, run).verdict
      case Marker => TrailingCorrections(cfg, prefix)
      case Corrected => TrailingCorrections(cfg, prefix) + 1
      case _ => 0
  }

  /** The streak counter is the number of trailing corrections and never reaches the limit. */
  lemma {:induction false} StreakCountsCorrections(cfg: Config, run: seq<Input>)
    requires ValidConfig(cfg)
    ensures StateAfter(cfg, run).streak == TrailingCorrections(cfg, run) < cfg.relatchFrames
  {
    if |run| > 0 {
      StreakCountsCorrections(cfg, run[..|run| - 1]);
    }
  }

  /** The guarded case of the last reading of a run. */
  ghost predicate LastInverted(cfg: Config, run: seq<Input>)
    requires |run| > 0
  {
    var c, last := StateAfter(cfg, run[..|run| - 1]), run[|run| - 1];
    Parse(last.raw).Some? && Inverted(cfg, c, Parse(last.raw).value, last.ts)
  }

  /**
    Without the median an inverted reading is accepted exactly when it ends a run of
    relatchFrames inverted readings, counted from the last one that was not corrected; before
    that it is stored under the old sign.  The stored magnitude is always the reading's.
  */
  lemma RelatchExactness(cfg: Config, run: seq<Input>)
    requires ValidConfig(cfg) && !cfg.medianFilter && |run| > 0
    requires Parse(run[|run| - 1].raw).Some?
    ensures var v := Parse(run[|run| - 1].raw).value;
            var before, after := StateAfter(cfg, run[..|run| - 1]), StateAfter(cfg, run);
            && after.prev.Some? && Abs(after.prev.value) == Abs(v)
            && (LastInverted(cfg, run) ==>
                  var accepted := TrailingCorrections(cfg, run[..|run| - 1]) + 1 == cfg.relatchFrames;
                  && after.prev.value == (if accepted then v else -v)
                  && (before.prev.value * after.prev.value < 0.0 <==> accepted)
                  && after.streak == (if accepted then 0 else before.streak + 1))
            && (!LastInverted(cfg, run) ==> after.prev.value == v && after.streak == 0)
  {
    StreakCountsCorrections(cfg, run[..|run| - 1]);
    if LastInverted(cfg, run) {
      var v, p := Parse(run[|run| - 1].raw).value, StateAfter(cfg, run[..|run| - 1]).prev.value;
      SignProduct(v, p);
      SignProduct(p, v);
      SignProduct(p, -v);
    }
  }

  /** The readings of a run that parse. */
  function Readable(run: seq<Input>): seq<Input> {
    if |run| == 0 then []
    else
      var rest, last := Readable(run[..|run| - 1]), run[|run| - 1];
      if Parse(last.raw).Some? then rest + [last] else rest
  }

  /** Error markers, wherever they fall, leave no trace in the channel. */
  lemma {:induction false} MarkersInvisible(cfg: Config, run: seq<Input>)
    ensures StateAfter(cfg, run) == StateAfter(cfg, Readable(run))
  {
    if |run| > 0 {
      var prefix, last := run[..|run| - 1], run[|run| - 1];
      MarkersInvisible(cfg, prefix);
      if Parse(last.raw).Some? {
        var r := Readable(prefix) + [last];
        assert r[..|r| - 1] == Readable(prefix);
      }
    }
  }

  /** Every reading of the burst is inverted against p, fresh, large and near its predecessor. */
  ghost predicate InvertedBurst(cfg: Config, p: real, t: real, burst: seq<Input>) {
    && (forall k | 0 <= k < |burst| :: Parse(burst[k].raw).Some?)
    && (forall k | 0 <= k < |burst| :: InvertedAt(cfg, p, t, burst, k))
  }

  ghost predicate InvertedAt(cfg: Config, p: real, t: real, burst: seq<Input>, k: nat)
    requires k < |burst|
  {
    && Parse(burst[k].raw).Some?
    && (k > 0 ==> Parse(burst[k - 1].raw).Some?)
    && InvertedNext(cfg, p,
         if k == 0 then p else -Parse(burst[k - 1].raw).value,
         if k == 0 then t else burst[k - 1].ts,
         Parse(burst[k].raw).value, burst[k].ts)
  }

  predicate InvertedNext(cfg: Config, p: real, before: real, t: real, v: real, ts: real) {
    && (p > 0.0 > v || p < 0.0 < v)
    && ts - t <= cfg.staleness
    && Abs(v) >= cfg.minMagnitude
    && Abs(Abs(v) - Abs(before)) <= cfg.tolerance
  }

  /**
    A sign change that persists: after any run ending without a pending correction, the first
    relatchFrames - 1 inverted readings are stored under the old sign and the next one is
    stored as it came.
  */
  lemma {:induction false} PersistentChangeRelatches(cfg: Config, run: seq<Input>, burst: seq<Input>)
    requires ValidConfig(cfg) && !cfg.medianFilter
    requires StateAfter(cfg, run).streak == 0 && StateAfter(cfg, run).prev.Some?
    requires 0 < |burst| <= cfg.relatchFrames
    requires InvertedBurst(cfg, StateAfter(cfg, run).prev.value, StateAfter(cfg, run).prevTs, burst)
    ensures var after := StateAfter(cfg, run + burst);
            var v := Parse(burst[|burst| - 1].raw).value;
            && after.prev == Some(if |burst| < cfg.relatchFrames then -v else v)
            && after.prevTs == burst[|burst| - 1].ts
            && after.streak == (if |burst| < cfg.relatchFrames then |burst| else 0)
  {
    hide Parse;
    var c := StateAfter(cfg, run);
    var prefix, last := burst[..|burst| - 1], burst[|burst| - 1];
    assert (run + burst)[..|run + burst| - 1] == run + prefix;
    assert (run + burst)[|run + burst| - 1] == last;
    assert InvertedAt(cfg, c.prev.value, c.prevTs, burst, |burst| - 1);
    var v := Parse(last.raw).value;
    if |prefix| > 0 {
      forall k | 0 <= k < |prefix|
        ensures InvertedAt(cfg, c.prev.value, c.prevTs, prefix, k)
      {
        assert InvertedAt(cfg, c.prev.value, c.prevTs, burst, k);
      }
      PersistentChangeRelatches(cfg, run, prefix);
      assert InvertedAt(cfg, c.prev.value, c.prevTs, prefix, |prefix| - 1);
    } else {
      assert run + prefix == run;
    }
    BurstStep(cfg, c.prev.value, StateAfter(cfg, run + prefix), |prefix|, last, v);
  }

  lemma BurstStep(cfg: Config, p: real, c: Channel, corrected: nat, input: Input, v: real)
    requires ValidConfig(cfg) && !cfg.medianFilter && corrected < cfg.relatchFrames
    requires Parse(input.raw) == Some(v) && c.streak == corrected && c.prev.Some?
    requires (p > 0.0 && c.prev.value > 0.0) || (p < 0.0 && c.prev.value < 0.0)
    requires InvertedNext(cfg, p, c.prev.value, c.prevTs, v, input.ts)
    ensures var after := ChannelStep(cfg, c, input.raw, input.ts).channel;
            && after.prev == Some(if corrected + 1 < cfg.relatchFrames then -v else v)
            && after.prevTs == input.ts
            && after.streak == (if corrected + 1 < cfg.relatchFrames then corrected + 1 else 0)
  {
    hide Parse, Quantize, FormatInteger;
  }

  // ---------------------------------------------------------------- glitch removal

  /** A reading as the scale meant it, and whether its sign was flipped on the way. */
  datatype Sample = Sample(raw: string, ts: real, flipped: bool)

  function Clean(s: Sample): Input {
    Input(s.raw, s.ts)
  }

  function Received(s: Sample): Input {
    Input(if s.flipped && Signed(s.raw) then FlipSign(s.raw) else s.raw, s.ts)
  }

  function CleanRun(run: seq<Sample>): seq<Input> {
    seq(|run|, i requires 0 <= i < |run| => Clean(run[i]))
  }

  function ReceivedRun(run: seq<Sample>): seq<Input> {
    seq(|run|, i requires 0 <= i < |run| => Received(run[i]))
  }

  lemma RunPrefixes(run: seq<Sample>)
    requires |run| > 0
    ensures CleanRun(run)[..|run| - 1] == CleanRun(run[..|run| - 1])
    ensures ReceivedRun(run)[..|run| - 1] == ReceivedRun(run[..|run| - 1])
  {
  }

  /** Only signed readings can be flipped, and all readings share one non-zero sign. */
  predicate OneSign(run: seq<Sample>, positive: bool) {
    forall i | 0 <= i < |run| :: SampleSigned(run[i], positive)
  }

  predicate SampleSigned(s: Sample, positive: bool) {
    match Parse(s.raw)
    case None => !s.flipped
    case Some(v) => Signed(s.raw) && (if positive then v > 0.0 else v < 0.0)
  }

  /** The last sample of the run that parses. */
  function LastReading(run: seq<Sample>): Option<Sample> {
    if |run| == 0 then None
    else if Parse(run[|run| - 1].raw).Some? then Some(run[|run| - 1])
    else LastReading(run[..|run| - 1])
  }

  /** Consecutive flips at the end of the run, markers skipped. */
  function TrailingFlips(run: seq<Sample>): nat {
    if |run| == 0 then 0
    else
      var s, before := run[|run| - 1], TrailingFlips(run[..|run| - 1]);
      if Parse(s.raw).None? then before else if s.flipped then before + 1 else 0
  }

  /** Flipping `s` after `run` is the kind of corruption the guard is built for. */
  predicate Correctable(cfg: Config, run: seq<Sample>, s: Sample)
    requires Parse(s.raw).Some?
  {
    var v := Parse(s.raw).value;
    match LastReading(run)
    case None => false
    case Some(prior) =>
      && Parse(prior.raw).Some?
      && s.ts - prior.ts <= cfg.staleness
      && Abs(v) >= cfg.minMagnitude
      && Abs(Abs(v) - Abs(Parse(prior.raw).value)) <= cfg.tolerance
      && TrailingFlips(run) + 1 < cfg.relatchFrames
  }

  /** Every flip of the run is correctable at the moment it happens. */
  predicate AllCorrectable(cfg: Config, run: seq<Sample>) {
    |run| == 0
    || (var s, prefix := run[|run| - 1], run[..|run| - 1];
        && AllCorrectable(cfg, prefix)
        && (Parse(s.raw).Some? && s.flipped ==> Correctable(cfg, prefix, s)))
  }

  /** After every prefix both runs hold the same reading. */
  ghost predicate SameReadings(cfg: Config, run: seq<Sample>) {
    |run| == 0
    || (&& SameReadings(cfg, run[..|run| - 1])
        && StateAfter(cfg, ReceivedRun(run)).prev == StateAfter(cfg, CleanRun(run)).prev)
  }

  /** What the two channels hold after a correctable run. */
  ghost predicate Tracks(cfg: Config, run: seq<Sample>, positive: bool) {
    var clean, received := StateAfter(cfg, CleanRun(run)), StateAfter(cfg, ReceivedRun(run));
    && received == clean.(streak := TrailingFlips(run))
    && clean.streak == 0
    && (match LastReading(run)
        case None => clean.prev == None
        case Some(s) => clean.prev == Parse(s.raw) && clean.prev.Some? && clean.prevTs == s.ts
                        && (if positive then clean.prev.value > 0.0 else clean.prev.value < 0.0))
    && (cfg.step > 0.0 && clean.bin.Some? ==> if positive then clean.bin.value >= 0.0 else clean.bin.value <= 0.0)
  }

  /** A quantized reading never lands on the reading's own negation. */
  lemma QuantizeKeepsSide(cfg: Config, bin: Option<real>, value: real, positive: bool)
    requires if positive then value > 0.0 else value < 0.0
    requires cfg.step > 0.0 && bin.Some? ==> if positive then bin.value >= 0.0 else bin.value <= 0.0
    ensures var q := Quantize(cfg.step, cfg.hysteresis, bin, value);
            && q.value != -value
            && (cfg.step > 0.0 && q.bin.Some? ==> if positive then q.bin.value >= 0.0 else q.bin.value <= 0.0)
  {
  }

  /** The judgement of one clean and one received reading. */
  lemma JudgeSample(cfg: Config, run: seq<Sample>, s: Sample, positive: bool)
    requires ValidConfig(cfg) && !cfg.medianFilter
    requires Tracks(cfg, run, positive) && SampleSigned(s, positive) && Parse(s.raw).Some?
    ensures var clean, received := StateAfter(cfg, CleanRun(run)), StateAfter(cfg, ReceivedRun(run));
            var v := Parse(s.raw).value;
            && Judge(cfg, clean, v, s.ts) == Plain
            && Judge(cfg, received, v, s.ts) == Plain
            && (Judge(cfg, received, -v, s.ts) == Corrected <==> Correctable(cfg, run, s))
  {
    var clean := StateAfter(cfg, CleanRun(run));
    var v := Parse(s.raw).value;
    if clean.prev.Some? {
      SignProduct(v, clean.prev.value);
      SignProduct(-v, clean.prev.value);
    }
  }

  /** The last step of the clean run after a tracked prefix. */
  lemma LastCleanStep(cfg: Config, run: seq<Sample>, positive: bool)
    requires ValidConfig(cfg) && !cfg.medianFilter
    requires |run| > 0 && Tracks(cfg, run[..|run| - 1], positive)
    requires SampleSigned(run[|run| - 1], positive) && Parse(run[|run| - 1].raw).Some?
    ensures var s := run[|run| - 1];
            var v, c := Parse(s.raw).value, StateAfter(cfg, CleanRun(run[..|run| - 1]));
            LastStep(cfg, CleanRun(run)) == Settle(cfg, c, s.raw, v, v, Plain, s.ts)
  {
    var s, prefix := run[|run| - 1], run[..|run| - 1];
    RunPrefixes(run);
    JudgeSample(cfg, prefix, s, positive);
    GuardOnlyStep(cfg, StateAfter(cfg, CleanRun(prefix)), s.raw, s.ts, Parse(s.raw).value);
  }

  /** The last step of the received run after a tracked prefix. */
  lemma LastReceivedStep(cfg: Config, run: seq<Sample>, positive: bool) returns (verdict: Verdict)
    requires ValidConfig(cfg) && !cfg.medianFilter
    requires |run| > 0 && Tracks(cfg, run[..|run| - 1], positive)
    requires SampleSigned(run[|run| - 1], positive) && Parse(run[|run| - 1].raw).Some?
    ensures var s := run[|run| - 1];
            var v, c := Parse(s.raw).value, StateAfter(cfg, ReceivedRun(run[..|run| - 1]));
            LastStep(cfg, ReceivedRun(run))
              == if s.flipped then Settle(cfg, c, FlipSign(s.raw), -v, -v, verdict, s.ts)
                 else Settle(cfg, c, s.raw, v, v, Plain, s.ts)
    ensures var s := run[|run| - 1]; verdict == Corrected <==> Correctable(cfg, run[..|run| - 1], s)
  {
    hide Parse;
    var s, prefix := run[|run| - 1], run[..|run| - 1];
    var v, c := Parse(s.raw).value, StateAfter(cfg, ReceivedRun(prefix));
    RunPrefixes(run);
    JudgeSample(cfg, prefix, s, positive);
    verdict := Judge(cfg, c, -v, s.ts);
    if s.flipped {
      FlipSignNegates(s.raw);
      GuardOnlyStep(cfg, c, FlipSign(s.raw), s.ts, -v);
    } else {
      GuardOnlyStep(cfg, c, s.raw, s.ts, v);
    }
  }

  lemma SettleTracks(cfg: Config, run: seq<Sample>, positive: bool)
    requires ValidConfig(cfg) && !cfg.medianFilter
    requires |run| > 0 && Tracks(cfg, run[..|run| - 1], positive)
    requires SampleSigned(run[|run| - 1], positive)
    ensures var s, prefix := run[|run| - 1], run[..|run| - 1];
            if Parse(s.raw).Some? && s.flipped && !Correctable(cfg, prefix, s) then
              StateAfter(cfg, ReceivedRun(run)).prev != StateAfter(cfg, CleanRun(run)).prev
            else
              Tracks(cfg, run, positive)
  {
    hide Parse, Correctable, AllCorrectable;
    var s, prefix := run[|run| - 1], run[..|run| - 1];
    if Parse(s.raw).Some? {
      LastCleanStep(cfg, run, positive);
      var verdict := LastReceivedStep(cfg, run, positive);
      QuantizeKeepsSide(cfg, StateAfter(cfg, CleanRun(prefix)).bin, Parse(s.raw).value, positive);
    } else {
      MarkerKeepsTracking(cfg, run, positive);
    }
  }

  lemma MarkerKeepsTracking(cfg: Config, run: seq<Sample>, positive: bool)
    requires |run| > 0 && Tracks(cfg, run[..|run| - 1], positive)
    requires SampleSigned(run[|run| - 1], positive) && Parse(run[|run| - 1].raw).None?
    ensures Tracks(cfg, run, positive)
    ensures LastStep(cfg, ReceivedRun(run)).text == LastStep(cfg, CleanRun(run)).text
  {
    RunPrefixes(run);
    var s := run[|run| - 1];
    assert CleanRun(run)[|run| - 1] == Clean(s) && ReceivedRun(run)[|run| - 1] == Clean(s);
  }

  /**
    Glitch removal, at the level of the stored readings: for readings of one sign the
    corrupted run stores what the clean run stores, frame after frame, exactly when every flip
    is of the kind the guard is built for.
  */
  lemma {:induction false} GlitchRemovalIff(cfg: Config, run: seq<Sample>, positive: bool)
    requires ValidConfig(cfg) && !cfg.medianFilter
    requires OneSign(run, positive)
    ensures SameReadings(cfg, run) <==> AllCorrectable(cfg, run)
    ensures AllCorrectable(cfg, run) ==> Tracks(cfg, run, positive)
  {
    if |run| > 0 {
      GlitchRemovalIff(cfg, run[..|run| - 1], positive);
      if AllCorrectable(cfg, run[..|run| - 1]) {
        SettleTracks(cfg, run, positive);
      }
    }
  }

  /** A flipped reading is printed as the clean run prints it. */
  predicate PrintedAlike(cfg: Config, bin: Option<real>, s: Sample)
    requires Parse(s.raw).Some?
  {
    var v := Parse(s.raw).value;
    s.flipped && Quantize(cfg.step, cfg.hysteresis, bin, v).value == v ==> FormatInteger(v) == s.raw
  }

  lemma LastOutputAlike(cfg: Config, run: seq<Sample>, positive: bool)
    requires ValidConfig(cfg) && !cfg.medianFilter && |run| > 0
    requires Tracks(cfg, run[..|run| - 1], positive) && SampleSigned(run[|run| - 1], positive)
    requires var s := run[|run| - 1];
             Parse(s.raw).Some? && s.flipped ==> Correctable(cfg, run[..|run| - 1], s)
    ensures var s, bin := run[|run| - 1], StateAfter(cfg, CleanRun(run[..|run| - 1])).bin;
            LastStep(cfg, ReceivedRun(run)).text == LastStep(cfg, CleanRun(run)).text
            <==> (Parse(s.raw).Some? ==> PrintedAlike(cfg, bin, s))
  {
    var s, prefix := run[|run| - 1], run[..|run| - 1];
    if Parse(s.raw).Some? {
      LastCleanStep(cfg, run, positive);
      var verdict := LastReceivedStep(cfg, run, positive);
      QuantizeKeepsSide(cfg, StateAfter(cfg, CleanRun(prefix)).bin, Parse(s.raw).value, positive);
    } else {
      MarkerKeepsTracking(cfg, run, positive);
    }
  }

  /** Every flipped reading the quantizer leaves alone was already in the emitted format. */
  ghost predicate AllPrintedAlike(cfg: Config, run: seq<Sample>) {
    |run| == 0
    || (var s, prefix := run[|run| - 1], run[..|run| - 1];
        && AllPrintedAlike(cfg, prefix)
        && (Parse(s.raw).Some? ==> PrintedAlike(cfg, StateAfter(cfg, CleanRun(prefix)).bin, s)))
  }

  /**
    Glitch removal, at the level of the emitted texts, quantizer included: a correctable run
    comes out exactly as the clean run does, if and only if every flipped reading that the
    quantizer leaves alone was already spelled the way the sanitizer spells numbers.
  */
  lemma {:induction false} GlitchRemovalTextsIff(cfg: Config, run: seq<Sample>, positive: bool)
    requires ValidConfig(cfg) && !cfg.medianFilter
    requires OneSign(run, positive) && AllCorrectable(cfg, run)
    ensures Outputs(cfg, ReceivedRun(run)) == Outputs(cfg, CleanRun(run)) <==> AllPrintedAlike(cfg, run)
  {
    if |run| > 0 {
      var prefix := run[..|run| - 1];
      GlitchRemovalTextsIff(cfg, prefix, positive);
      GlitchRemovalIff(cfg, prefix, positive);
      LastOutputAlike(cfg, run, positive);
      RunPrefixes(run);
      var a, b := Outputs(cfg, ReceivedRun(run)), Outputs(cfg, CleanRun(run));
      assert a[..|run| - 1] == Outputs(cfg, ReceivedRun(prefix));
      assert b[..|run| - 1] == Outputs(cfg, CleanRun(prefix));
      assert a == a[..|run| - 1] + [a[|run| - 1]] && b == b[..|run| - 1] + [b[|run| - 1]];
    }
  }

  /** Sign and five digits, as integer firmware reports. */
  predicate IntegerReading(raw: string) {
    Parse(raw).Some? ==> raw == FormatInteger(Parse(raw).value)
  }

  /** The law the module documents: integer readings, any correctable corruption, same output. */
  lemma {:induction false} IntegerGlitchesVanish(cfg: Config, run: seq<Sample>, positive: bool)
    requires ValidConfig(cfg) && !cfg.medianFilter
    requires OneSign(run, positive) && AllCorrectable(cfg, run)
    requires forall i | 0 <= i < |run| :: IntegerReading(run[i].raw)
    ensures Outputs(cfg, ReceivedRun(run)) == Outputs(cfg, CleanRun(run))
  {
    IntegerPrintedAlike(cfg, run);
    GlitchRemovalTextsIff(cfg, run, positive);
  }

  lemma {:induction false} IntegerPrintedAlike(cfg: Config, run: seq<Sample>)
    requires forall i | 0 <= i < |run| :: IntegerReading(run[i].raw)
    ensures AllPrintedAlike(cfg, run)
  {
    if |run| > 0 {
      IntegerPrintedAlike(cfg, run[..|run| - 1]);
    }
  }

  /**
    The fractional firmware's spelling is not covered: with the shipped configuration a
    flipped "+125.0" comes back as "+00125", not as the clean run prints it.
  */
  lemma FractionalGlitchShows() returns (run: seq<Sample>)
    ensures OneSign(run, true) && AllCorrectable(DEFAULTS, run)
    ensures Outputs(DEFAULTS, ReceivedRun(run)) != Outputs(DEFAULTS, CleanRun(run))
  {
    hide Parse, Quantize, FormatInteger, ChannelStep, Outputs, StateAfter;
    var first, second := Sample("+125.0", 0.0, false), Sample("+125.0", 1.0, true);
    run := [first, second];
    FractionalParses();
    assert run[..1] == [first] && [first][..0] == [];
    assert AllCorrectable(DEFAULTS, [first]);
    assert LastReading([first]) == Some(first);
    GlitchRemovalTextsIff(DEFAULTS, run, true);
    FractionalBin();
    assert CleanRun([first]) == [Clean(first)];
    FractionalSpelling();
  }

  lemma FractionalSpelling()
    ensures FormatInteger(125.0) != "+125.0"
  {
    var text := FormatInteger(125.0);
    assert IsDigit(text[4]) && "+125.0"[4] == '.';
  }

  lemma FractionalParses()
    ensures Parse("+125.0") == Some(125.0)
  {
    hide Parse, Unsigned;
    TenthsUnsigned(1250);
    Text125();
    Text0();
    var body := "125" + "." + "0";
    ParseSigned('+', body, 125.0);
    assert ['+'] + body == "+125.0";
  }

  lemma Text125()
    ensures Padded(125, 3) == "125"
  {
  }

  lemma Text0()
    ensures Padded(0, 1) == "0"
  {
  }

  lemma FractionalBin()
    ensures var c := StateAfter(DEFAULTS, [Clean(Sample("+125.0", 0.0, false))]);
            Quantize(DEFAULTS.step, DEFAULTS.hysteresis, c.bin, 125.0).value == 125.0
  {
    FractionalParses();
    var run := [Clean(Sample("+125.0", 0.0, false))];
    assert run[..0] == [];
    assert StateAfter(DEFAULTS, []) == BLANK;
    assert RoundHalfUp(125.0, 5.0) == 25 by {
      assert 125.0 / 5.0 == 25.0;
    }
    assert Quantize(5.0, 1.0, None, 125.0) == Quantized(Some(125.0), 125.0);
  }
}

/**
  From the wire to the caller: the sanitizer's promise about one channel, as a promise about the
  texts the loadcell command returns in any run of the service.
*/
module EngineGlitches {
  import opened Basics
  import opened Readings
  import opened Engine
  import opened EngineLoadcells
  import opened GlitchRemoval
  import opened SanitizerOutput
  import Quantizer
  import San = Sanitizer

  /** What channel c has seen of the sampled frames; a frame may be too short to reach it. */
  function ChannelRun(samples: seq<LogEvent>, c: nat): seq<Input>
    requires forall i | 0 <= i < |samples| :: samples[i].Sampled?
  {
    if |samples| == 0 then []
    else
      var e, before := samples[|samples| - 1], ChannelRun(samples[..|samples| - 1], c);
      if c < |e.values| then before + [Input(e.values[c], e.time)] else before
  }

  /** One frame, seen by channel c. */
  lemma FrameAt(cfg: San.Config, cs: seq<San.Channel>, values: seq<string>, ts: real, c: nat)
    requires c < |cs|
    ensures var framed := San.SanitizeFrame(cfg, cs, values, ts);
            && |framed.channels| == |cs| && |framed.texts| == |values|
            && framed.channels[c] == (if c < |values| then San.ChannelStep(cfg, cs[c], values[c], ts).channel else cs[c])
            && (c < |values| ==> framed.texts[c] == San.ChannelStep(cfg, cs[c], values[c], ts).text)
  {
    hide San.ChannelStep;
  }

  /** One more reading of a channel's run. */
  lemma RunStep(cfg: San.Config, run: seq<Input>, input: Input)
    ensures LastStep(cfg, run + [input]) == San.ChannelStep(cfg, StateAfter(cfg, run), input.raw, input.ts)
    ensures StateAfter(cfg, run + [input]) == LastStep(cfg, run + [input]).channel
  {
    hide San.ChannelStep;
    assert (run + [input])[..|run|] == run;
  }

  lemma BlankByChannel(cfg: San.Config, c: nat)
    requires c < San.CHANNELS
    ensures |Replay(cfg, []).channels| == San.CHANNELS && Replay(cfg, []).channels[c] == StateAfter(cfg, [])
  {
  }

  /** The replay of whole frames is, channel by channel, the run of the channel's own readings. */
  lemma {:induction false} ReplayByChannel(cfg: San.Config, samples: seq<LogEvent>, c: nat)
    requires cfg.enabled && c < 10
    requires forall i | 0 <= i < |samples| :: samples[i].Sampled?
    ensures var replay, run := Replay(cfg, samples), ChannelRun(samples, c);
            && |replay.channels| == 10 && replay.channels[c] == StateAfter(cfg, run)
            && (|samples| > 0 && c < |samples[|samples| - 1].values| ==>
                  |run| > 0 && c < |replay.texts| && replay.texts[c] == LastStep(cfg, run).text)
  {
    hide San.ChannelStep, San.SanitizeFrame, LastStep, StateAfter;
    if |samples| == 0 {
      BlankByChannel(cfg, c);
    } else {
      var e, before := samples[|samples| - 1], samples[..|samples| - 1];
      ReplayByChannel(cfg, before, c);
      FrameAt(cfg, Replay(cfg, before).channels, e.values, e.time, c);
      if c < |e.values| {
        RunStep(cfg, ChannelRun(before, c), Input(e.values[c], e.time));
      }
    }
  }

  /** The readings of a channel are a run of integer readings of one sign, some flipped correctably. */
  ghost predicate CorruptionOf(cfg: San.Config, samples: seq<LogEvent>, c: nat, run: seq<Sample>, positive: bool)
    requires forall i | 0 <= i < |samples| :: samples[i].Sampled?
  {
    && ChannelRun(samples, c) == ReceivedRun(run)
    && OneSign(run, positive) && AllCorrectable(cfg, run)
    && forall i | 0 <= i < |run| :: IntegerReading(run[i].raw)
  }

  /** The replay prints the newest reading of such a channel as the uncorrupted run does. */
  lemma ReplayIsClean(cfg: San.Config, samples: seq<LogEvent>, c: nat, run: seq<Sample>, positive: bool)
    requires San.ValidConfig(cfg) && cfg.enabled && !cfg.medianFilter && c < 10
    requires forall i | 0 <= i < |samples| :: samples[i].Sampled?
    requires |samples| > 0 && c < |samples[|samples| - 1].values| && CorruptionOf(cfg, samples, c, run, positive)
    ensures |run| > 0 && c < |Replay(cfg, samples).texts|
    ensures Replay(cfg, samples).texts[c] == LastStep(cfg, CleanRun(run)).text
  {
    hide LastStep, Replay, ChannelRun, AllCorrectable, OneSign, IntegerReading;
    ReplayByChannel(cfg, samples, c);
    IntegerGlitchesVanish(cfg, run, positive);
    LastOutput(cfg, ReceivedRun(run));
    LastOutput(cfg, CleanRun(run));
  }

  lemma LastOutput(cfg: San.Config, run: seq<Input>)
    requires |run| > 0
    ensures Outputs(cfg, run)[|run| - 1] == LastStep(cfg, run).text
  {
    hide LastStep;
  }

  /**
    In every run of the service, whoever called and whether the answer is fresh or cached: if the
    frames sampled since the last calibration show on channel c integer readings of one sign with
    correctable sign flips, then the text served for c is the one the uncorrupted readings give.
  */
  lemma ServedTextIsClean(cfg: Config, states: seq<State>, actions: seq<Action>, n: nat, i: nat,
                          c: nat, run: seq<Sample>, positive: bool)
    requires IsRun(cfg, states, actions) && n < |states|
    requires i < |states[n].log| && states[n].log[i].Served?
    requires San.ValidConfig(cfg.sanitize) && cfg.sanitize.enabled && !cfg.sanitize.medianFilter
    requires c < 10 && c < |states[n].log[i].texts|
    requires CorruptionOf(cfg.sanitize, SinceReset(states[n].log[..i]), c, run, positive)
    ensures |run| > 0 && states[n].log[i].texts[c] == LastStep(cfg.sanitize, CleanRun(run)).text
  {
    hide Replay, CorruptionOf, LastStep, SinceReset;
    LoadcellsInRun(cfg, states, actions, n);
    var log := states[n].log;
    var samples := SinceReset(log[..i]);
    assert ServedFrom(cfg, log[..i], log[i]);
    TextsMatchValues(cfg.sanitize, samples);
    ReplayIsClean(cfg.sanitize, samples, c, run, positive);
  }

  /**
    In every run of the service with sanitizing and quantization on, every text served for a channel
    with a reading carries the channel's bin: a multiple of the step, near the stored reading.
  */
  lemma ServedTextIsQuantized(cfg: Config, states: seq<State>, actions: seq<Action>, n: nat, i: nat, c: nat)
    returns (run: seq<Input>)
    requires IsRun(cfg, states, actions) && n < |states|
    requires i < |states[n].log| && states[n].log[i].Served?
    requires cfg.sanitize.enabled && cfg.sanitize.step > 0.0 && cfg.sanitize.hysteresis >= 0.0
    requires c < 10 && c < |states[n].log[i].texts|
    ensures run == ChannelRun(SinceReset(states[n].log[..i]), c) && |run| > 0
    ensures var raw, after, text := run[|run| - 1].raw, StateAfter(cfg.sanitize, run), states[n].log[i].texts[c];
            if Parse(raw).None? then text == raw
            else
              && after.prev.Some? && after.bin.Some? && Quantizer.OnGrid(after.bin.value, cfg.sanitize.step)
              && Carries(text, raw, after.bin.value)
  {
    hide Replay, LastStep, StateAfter, SinceReset, Parse, Carries, Quantizer.OnGrid, ChannelRun;
    LoadcellsInRun(cfg, states, actions, n);
    var log := states[n].log;
    var samples := SinceReset(log[..i]);
    assert ServedFrom(cfg, log[..i], log[i]);
    TextsMatchValues(cfg.sanitize, samples);
    ReplayByChannel(cfg.sanitize, samples, c);
    run := ChannelRun(samples, c);
    if Parse(run[|run| - 1].raw).None? {
      MarkerPasses(cfg.sanitize, run);
    } else {
      EmittedTextIsQuantized(cfg.sanitize, run);
    }
  }

  /** With the sanitizer disabled the device's own texts are served. */
  lemma ServedTextIsRaw(cfg: Config, states: seq<State>, actions: seq<Action>, n: nat, i: nat)
    requires IsRun(cfg, states, actions) && n < |states| && !cfg.sanitize.enabled
    requires i < |states[n].log| && states[n].log[i].Served?
    ensures var samples := SinceReset(states[n].log[..i]);
            |samples| > 0 && states[n].log[i].texts == samples[|samples| - 1].values
  {
    hide SinceReset;
    LoadcellsInRun(cfg, states, actions, n);
    assert ServedFrom(cfg, states[n].log[..i], states[n].log[i]);
  }

  /** As many texts as the newest frame has readings. */
  lemma TextsMatchValues(cfg: San.Config, samples: seq<LogEvent>)
    requires |samples| > 0 && forall i | 0 <= i < |samples| :: samples[i].Sampled?
    ensures |Replay(cfg, samples).texts| == |samples[|samples| - 1].values|
  {
  }
}

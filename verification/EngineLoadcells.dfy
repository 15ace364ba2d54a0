/**
  What callers of the loadcell command get, over whole runs: the cache and the sanitizer are
  functions of the frames sampled since the last calibration, every accepted frame is sampled
  exactly once in the order received, and nothing from before a calibration survives it.
*/
module EngineLoadcells {
  import opened Basics
  import opened FrameCodec
  import opened Engine
  import opened EngineLocks
  import opened EngineWire
  import San = Sanitizer

  // ---------------------------------------------------------------- reading the log

  /** The samples taken since the last calibration, oldest first. */
  function SinceReset(log: seq<LogEvent>): (samples: seq<LogEvent>)
    ensures forall i | 0 <= i < |samples| :: samples[i].Sampled?
  {
    if |log| == 0 then []
    else
      var e, before := log[|log| - 1], log[..|log| - 1];
      match e
      case Calibrated(_) => []
      case Sampled(_, _, _) => SinceReset(before) + [e]
      case _ => SinceReset(before)
  }

  /** The sanitizer run from blank over the given samples, and what it made of the last one. */
  function Replay(cfg: San.Config, samples: seq<LogEvent>): San.Framed
    requires forall i | 0 <= i < |samples| :: samples[i].Sampled?
  {
    if |samples| == 0 then San.Framed(San.BlankChannels(), [])
    else
      var e, before := samples[|samples| - 1], Replay(cfg, samples[..|samples| - 1]);
      if cfg.enabled then San.SanitizeFrame(cfg, before.channels, e.values, e.time)
      else San.Framed(before.channels, e.values)
  }

  /** A served result is the sanitizer's view of the latest sample, fresh or still young enough. */
  ghost predicate ServedFrom(cfg: Config, before: seq<LogEvent>, e: LogEvent)
    requires e.Served?
  {
    var samples := SinceReset(before);
    && |samples| > 0
    && e.texts == Replay(cfg.sanitize, samples).texts
    && var last := samples[|samples| - 1];
       if e.cached then cfg.loadGap > 0.0 && e.time - last.time < cfg.loadGap
       else before[|before| - 1] == last && e.time == last.time
  }

  /** An accepted, readable loadcell frame. */
  predicate LoadcellFrame(e: WireEvent) {
    e.Rx? && e.message.code == RQIW && Accepted(e.frame, RQIW) && e.frame.body.Weights?
  }

  predicate CalibrationFrame(e: WireEvent) {
    e.Rx? && e.message.code == MCLZ && Accepted(e.frame, MCLZ) && !e.frame.body.Unreadable?
  }

  /** Positions of the accepted loadcell frames on the wire. */
  function LoadcellFrames(wire: seq<WireEvent>): seq<nat> {
    if |wire| == 0 then []
    else
      var n := |wire| - 1;
      LoadcellFrames(wire[..n]) + (if LoadcellFrame(wire[n]) then [n] else [])
  }

  /** Wire positions of the samples, in the order the sanitizer saw them. */
  function SampledFrames(log: seq<LogEvent>): seq<nat> {
    if |log| == 0 then []
    else
      var e := log[|log| - 1];
      SampledFrames(log[..|log| - 1]) + (if e.Sampled? then [e.rx] else [])
  }

  /** Positions of the accepted calibration answers on the wire. */
  function CalibrationFrames(wire: seq<WireEvent>): seq<nat> {
    if |wire| == 0 then []
    else
      var n := |wire| - 1;
      CalibrationFrames(wire[..n]) + (if CalibrationFrame(wire[n]) then [n] else [])
  }

  /** Wire positions of the calibrations the log knows. */
  function CalibratedFrames(log: seq<LogEvent>): seq<nat> {
    if |log| == 0 then []
    else
      var e := log[|log| - 1];
      CalibratedFrames(log[..|log| - 1]) + (if e.Calibrated? then [e.rx] else [])
  }

  predicate FromWire(e: LogEvent) {
    e.Sampled? || e.Calibrated?
  }

  /** The wire event a log entry stems from is the frame it claims. */
  predicate Justified(wire: seq<WireEvent>, e: LogEvent) {
    match e
    case Sampled(rx, values, time) =>
      rx < |wire| && LoadcellFrame(wire[rx]) && wire[rx].frame.body.values == values && wire[rx].time == time
    case Calibrated(rx) => rx < |wire| && CalibrationFrame(wire[rx])
    case _ => true
  }

  // ---------------------------------------------------------------- the invariant

  /** Cache and sanitizer are what the log says. */
  ghost predicate MemoryFollowsLog(cfg: Config, s: State) {
    var samples := SinceReset(s.log);
    && s.sanitizer == Replay(cfg.sanitize, samples).channels
    && s.cache == (if |samples| == 0 then None else Some(Replay(cfg.sanitize, samples).texts))
    && (|samples| > 0 ==> s.cacheTs == samples[|samples| - 1].time)
  }

  ghost predicate LogSound(cfg: Config, wire: seq<WireEvent>, log: seq<LogEvent>) {
    && (forall i | 0 <= i < |log| :: Justified(wire, log[i]))
    && (forall i | 0 <= i < |log| && log[i].Served? :: ServedFrom(cfg, log[..i], log[i]))
    && (forall i, j | 0 <= i < j < |log| && FromWire(log[i]) && FromWire(log[j]) :: log[i].rx < log[j].rx)
    && SampledFrames(log) == LoadcellFrames(wire)
    && CalibratedFrames(log) == CalibrationFrames(wire)
  }

  /** Every sample is handed to the caller whose request it answers, at once. */
  ghost predicate SamplesServed(wire: seq<WireEvent>, log: seq<LogEvent>) {
    forall k | 0 <= k < |log| && log[k].Sampled? :: ServedAt(wire, log, k)
  }

  ghost predicate ServedAt(wire: seq<WireEvent>, log: seq<LogEvent>, k: nat)
    requires k < |log| && log[k].Sampled?
  {
    && k + 1 < |log| && log[k].rx < |wire|
    && log[k + 1].Served? && !log[k + 1].cached && log[k + 1].task == wire[log[k].rx].task
  }

  ghost predicate LoadcellsSafe(cfg: Config, s: State) {
    MemoryFollowsLog(cfg, s) && LogSound(cfg, s.wire, s.log) && SamplesServed(s.wire, s.log)
  }

  predicate SameMemory(s: State, s': State) {
    s'.log == s.log && s'.cache == s.cache && s'.cacheTs == s.cacheTs && s'.sanitizer == s.sanitizer
  }

  /** Appending a log entry that stems from no frame. */
  lemma AppendPlain(cfg: Config, wire: seq<WireEvent>, log: seq<LogEvent>, e: LogEvent)
    requires LogSound(cfg, wire, log) && !FromWire(e)
    requires e.Served? ==> ServedFrom(cfg, log, e)
    ensures LogSound(cfg, wire, log + [e])
    ensures SinceReset(log + [e]) == SinceReset(log)
  {
    var log' := log + [e];
    assert log'[..|log|] == log;
    forall i | 0 <= i < |log'| && log'[i].Served?
      ensures ServedFrom(cfg, log'[..i], log'[i])
    {
      if i < |log| { assert log'[..i] == log[..i]; }
    }
  }

  /** Appending an entry for the frame that was just received. */
  lemma AppendFromWire(cfg: Config, wire: seq<WireEvent>, log: seq<LogEvent>, w: WireEvent, e: LogEvent)
    requires LogSound(cfg, wire, log)
    requires FromWire(e) && e.rx == |wire| && Justified(wire + [w], e)
    ensures LogSound(cfg, wire + [w], log + [e])
    ensures SinceReset(log + [e]) == if e.Sampled? then SinceReset(log) + [e] else []
  {
    var wire', log' := wire + [w], log + [e];
    assert log'[..|log|] == log && wire'[..|wire|] == wire;
    forall i | 0 <= i < |log'|
      ensures Justified(wire', log'[i])
      ensures log'[i].Served? ==> ServedFrom(cfg, log'[..i], log'[i])
    {
      if i < |log| {
        assert Justified(wire, log[i]);
        assert log'[..i] == log[..i];
      }
    }
    forall i | 0 <= i < |log| && FromWire(log[i])
      ensures log[i].rx < e.rx
    {
      assert Justified(wire, log[i]);
    }
  }

  /** Longer traces and logs keep what was served. */
  lemma StillServed(wire: seq<WireEvent>, more: seq<WireEvent>, log: seq<LogEvent>, entries: seq<LogEvent>)
    requires SamplesServed(wire, log) && forall k | 0 <= k < |entries| :: !entries[k].Sampled?
    ensures SamplesServed(wire + more, log + entries)
  {
    var wire', log' := wire + more, log + entries;
    forall k | 0 <= k < |log'| && log'[k].Sampled?
      ensures ServedAt(wire', log', k)
    {
      assert k < |log| && ServedAt(wire, log, k);
    }
  }

  /** A sample and its delivery, logged together. */
  lemma SampleServed(wire: seq<WireEvent>, w: WireEvent, log: seq<LogEvent>, sample: LogEvent, served: LogEvent)
    requires SamplesServed(wire, log)
    requires sample.Sampled? && sample.rx == |wire|
    requires served.Served? && !served.cached && served.task == w.task
    ensures SamplesServed(wire + [w], log + [sample] + [served])
  {
    var wire', log' := wire + [w], log + [sample] + [served];
    forall k | 0 <= k < |log'| && log'[k].Sampled?
      ensures ServedAt(wire', log', k)
    {
      if k < |log| {
        assert ServedAt(wire, log, k);
      }
    }
  }

  // ---------------------------------------------------------------- steps

  /** Everything but entering and hearing leaves log, cache and sanitizer alone. */
  lemma SilentMemory(cfg: Config, s: State, a: Action)
    requires Enabled(cfg, s, a) && !a.Enter? && !a.Hear?
    ensures var s' := Next(cfg, s, a);
            && SameMemory(s, s')
            && (s'.wire == s.wire || (a.Transmit? && s'.wire == s.wire + [WithTx(s, a.id).wire[|s.wire|]]))
  {
    hide GapUntil, WireUntil;
  }

  lemma EnterKeepsLog(cfg: Config, s: State, id: nat)
    requires LoadcellsSafe(cfg, s) && Enabled(cfg, s, Enter(id))
    ensures LoadcellsSafe(cfg, Next(cfg, s, Enter(id)))
  {
    hide LogSound, Replay, SamplesServed;
    if s.tasks[id].job.ReadLoadcells? && CacheHit(cfg, s) {
      var e := Served(id, s.cache.value, true, s.now);
      AppendPlain(cfg, s.wire, s.log, e);
      StillServed(s.wire, [], s.log, [e]);
      assert s.wire + [] == s.wire;
    }
  }

  lemma SampleKeepsLog(cfg: Config, s: State, id: nat, w: WireEvent)
    requires LoadcellsSafe(cfg, s) && id in s.tasks
    requires LoadcellFrame(w) && w.time == s.now && w.task == id
    ensures var heard := s.(lastRx := Some(s.now), wire := s.wire + [w]);
            LoadcellsSafe(cfg, Sample(cfg, heard, id, w.frame.body.values))
  {
    hide LogSound, SamplesServed, San.SanitizeFrame;
    var heard := s.(lastRx := Some(s.now), wire := s.wire + [w]);
    var values := w.frame.body.values;
    var s' := Sample(cfg, heard, id, values);
    var sample := Sampled(|s.wire|, values, s.now);
    AppendFromWire(cfg, s.wire, s.log, w, sample);
    var samples := SinceReset(s.log + [sample]);
    assert samples[..|samples| - 1] == SinceReset(s.log);
    var served := Served(id, SanitizeNow(cfg, heard, values).texts, false, s.now);
    assert s'.log == (s.log + [sample]) + [served];
    AppendPlain(cfg, heard.wire, s.log + [sample], served);
    SampleServed(s.wire, w, s.log, sample, served);
  }

  lemma ForgetKeepsLog(cfg: Config, s: State, w: WireEvent)
    requires LoadcellsSafe(cfg, s)
    requires CalibrationFrame(w)
    ensures var heard := s.(lastRx := Some(s.now), wire := s.wire + [w]);
            LoadcellsSafe(cfg, Forget(cfg, heard))
  {
    hide LogSound, SamplesServed;
    AppendFromWire(cfg, s.wire, s.log, w, Calibrated(|s.wire|));
    StillServed(s.wire, [w], s.log, [Calibrated(|s.wire|)]);
  }

  lemma ConfirmKeepsLog(cfg: Config, s: State, e: LogEvent)
    requires LoadcellsSafe(cfg, s) && e.Confirmed?
    ensures LoadcellsSafe(cfg, s.(log := s.log + [e]))
  {
    hide LogSound, Replay, SamplesServed;
    AppendPlain(cfg, s.wire, s.log, e);
    StillServed(s.wire, [], s.log, [e]);
    assert s.wire + [] == s.wire;
  }

  /** The invariant looks at memory and wire only. */
  lemma MemoryOnly(cfg: Config, s: State, s': State)
    requires LoadcellsSafe(cfg, s) && SameMemory(s, s') && s'.wire == s.wire
    ensures LoadcellsSafe(cfg, s')
  {
  }

  /** An event that is neither an accepted loadcell frame nor an accepted calibration. */
  lemma OtherFrameKeepsLog(cfg: Config, s: State, s': State, w: WireEvent)
    requires LoadcellsSafe(cfg, s) && !LoadcellFrame(w) && !CalibrationFrame(w)
    requires SameMemory(s, s') && s'.wire == s.wire + [w]
    ensures LoadcellsSafe(cfg, s')
  {
    StillServed(s.wire, [w], s.log, []);
    assert s.log + [] == s.log && s'.wire[..|s.wire|] == s.wire;
  }

  lemma DeliverKeepsLog(cfg: Config, s: State, id: nat, frame: FrameView)
    requires LoadcellsSafe(cfg, s) && id in s.tasks && JobOk(s.tasks[id].job)
    requires Accepted(frame, CodeOf(s.tasks[id]))
    ensures LoadcellsSafe(cfg, Deliver(cfg, WithRx(s, id, frame), id, frame))
  {
    hide LoadcellsSafe, Sample, Forget;
    var t, heard := s.tasks[id], WithRx(s, id, frame);
    var w := heard.wire[|s.wire|];
    var s' := Deliver(cfg, heard, id, frame);
    match t.job {
      case ReadLoadcells =>
        if frame.body.Weights? {
          SampleKeepsLog(cfg, s, id, w);
          MemoryOnly(cfg, Sample(cfg, heard, id, frame.body.values), s');
        } else {
          OtherFrameKeepsLog(cfg, s, s', w);
        }
      case Calibrate =>
        if frame.body.Unreadable? {
          OtherFrameKeepsLog(cfg, s, s', w);
        } else {
          ForgetKeepsLog(cfg, s, w);
          MemoryOnly(cfg, Forget(cfg, heard), s');
        }
      case Simple(_) => OtherFrameKeepsLog(cfg, s, s', w);
      case OperateBolt(_) =>
        OtherFrameKeepsLog(cfg, s, heard, w);
        if s'.log == heard.log {
          MemoryOnly(cfg, heard, s');
        } else {
          var e := s'.log[|s.log|];
          ConfirmKeepsLog(cfg, heard, e);
          MemoryOnly(cfg, heard.(log := heard.log + [e]), s');
        }
    }
  }

  lemma HearKeepsLog(cfg: Config, s: State, id: nat, reply: Reply)
    requires LocksAgree(s) && LoadcellsSafe(cfg, s) && Enabled(cfg, s, Hear(id, reply))
    ensures LoadcellsSafe(cfg, HearReply(cfg, s, id, reply))
  {
    hide LoadcellsSafe, Deliver, Backoff;
    assert LocksAgreeAt(s, id);
    var s' := HearReply(cfg, s, id, reply);
    if reply.Arrived? {
      var heard := WithRx(s, id, reply.frame);
      if Accepted(reply.frame, CodeOf(s.tasks[id])) {
        DeliverKeepsLog(cfg, s, id, reply.frame);
      } else {
        OtherFrameKeepsLog(cfg, s, s', heard.wire[|s.wire|]);
      }
    } else {
      MemoryOnly(cfg, s, s');
    }
  }

  lemma LoadcellsStep(cfg: Config, s: State, a: Action)
    requires LocksAgree(s) && LoadcellsSafe(cfg, s) && Enabled(cfg, s, a)
    ensures LoadcellsSafe(cfg, Next(cfg, s, a))
  {
    if a.Enter? {
      EnterKeepsLog(cfg, s, a.id);
    } else if a.Hear? {
      HearKeepsLog(cfg, s, a.id, a.reply);
    } else {
      hide LoadcellsSafe;
      SilentMemory(cfg, s, a);
      var s' := Next(cfg, s, a);
      if s'.wire == s.wire {
        MemoryOnly(cfg, s, s');
      } else {
        OtherFrameKeepsLog(cfg, s, s', WithTx(s, a.id).wire[|s.wire|]);
      }
    }
  }

  /**
    In every run: cache and sanitizer are functions of the samples since the last calibration,
    every result served is the sanitizer's output for the newest of them (a cached one younger
    than the gap), and the sanitizer has seen every accepted frame once, in order received.
  */
  lemma {:induction false} LoadcellsInRun(cfg: Config, states: seq<State>, actions: seq<Action>, i: nat)
    requires IsRun(cfg, states, actions) && i < |states|
    ensures LoadcellsSafe(cfg, states[i])
    ensures SampledFrames(states[i].log) == LoadcellFrames(states[i].wire)
  {
    if i > 0 {
      LoadcellsInRun(cfg, states, actions, i - 1);
      LocksInRun(cfg, states, actions, i - 1);
      LoadcellsStep(cfg, states[i - 1], actions[i - 1]);
    }
  }

  // ---------------------------------------------------------------- calibration barrier

  /** Samples counted at the end of a log were logged after any calibration in it. */
  lemma {:induction false} SampleAfterReset(log: seq<LogEvent>, j: nat, k: nat) returns (p: nat)
    requires j < |log| && log[j].Calibrated? && k < |SinceReset(log)|
    ensures j < p < |log| && log[p] == SinceReset(log)[k]
  {
    var n := |log| - 1;
    var before := log[..n];
    if log[n].Sampled? && k == |SinceReset(log)| - 1 {
      p := n;
    } else {
      p := SampleAfterReset(before, j, k);
    }
  }

  /**
    Calibration barrier: once a calibration is through, neither the sanitizer, nor the cache,
    nor any result served later rests on a frame received before the calibration's response.
  */
  lemma CalibrationBarrier(cfg: Config, states: seq<State>, actions: seq<Action>, n: nat, j: nat, i: nat)
    requires IsRun(cfg, states, actions) && n < |states|
    requires j < i <= |states[n].log| && states[n].log[j].Calibrated?
    ensures var log := states[n].log;
            var samples := SinceReset(log[..i]);
            && (forall k | 0 <= k < |samples| :: samples[k].rx > log[j].rx)
            && (i < |log| && log[i].Served? ==> log[i].texts == Replay(cfg.sanitize, samples).texts && |samples| > 0)
            && (i == |log| ==>
                  && states[n].sanitizer == Replay(cfg.sanitize, samples).channels
                  && (states[n].cache.Some? ==> states[n].cache.value == Replay(cfg.sanitize, samples).texts))
  {
    LoadcellsInRun(cfg, states, actions, n);
    var log := states[n].log;
    var samples := SinceReset(log[..i]);
    forall k | 0 <= k < |samples|
      ensures samples[k].rx > log[j].rx
    {
      var p := SampleAfterReset(log[..i], j, k);
      assert log[..i][p] == log[p];
    }
    if i == |log| {
      assert log[..i] == log;
    } else if log[i].Served? {
      assert ServedFrom(cfg, log[..i], log[i]);
    }
  }

  // ---------------------------------------------------------------- the barrier, from the wire

  lemma {:induction false} CalibrationLogged(log: seq<LogEvent>, c: nat) returns (j: nat)
    requires c in CalibratedFrames(log)
    ensures j < |log| && log[j] == Calibrated(c)
  {
    var n := |log| - 1;
    if log[n] == Calibrated(c) {
      j := n;
    } else {
      j := CalibrationLogged(log[..n], c);
    }
  }

  lemma {:induction false} CalibrationListed(wire: seq<WireEvent>, c: nat)
    requires c < |wire| && CalibrationFrame(wire[c])
    ensures c in CalibrationFrames(wire)
  {
    if c < |wire| - 1 {
      CalibrationListed(wire[..|wire| - 1], c);
    }
  }

  /** In every run each accepted calibration answer on the wire resets, once and in order received. */
  lemma CalibrationsReset(cfg: Config, states: seq<State>, actions: seq<Action>, n: nat)
    requires IsRun(cfg, states, actions) && n < |states|
    ensures CalibratedFrames(states[n].log) == CalibrationFrames(states[n].wire)
  {
    LoadcellsInRun(cfg, states, actions, n);
  }

  lemma BehindBarrier(cfg: Config, states: seq<State>, actions: seq<Action>, n: nat, j: nat, i: nat, c: nat)
    requires IsRun(cfg, states, actions) && n < |states|
    requires j < i <= |states[n].log| && states[n].log[j] == Calibrated(c)
    ensures RestsAfter(cfg, states[n].log, i, c)
  {
    CalibrationBarrier(cfg, states, actions, n, j, i);
  }

  /**
    The barrier from the wire: for every accepted calibration answer c there is a point in the log
    from which on everything served, and the cache and sanitizer state now, rest on frames received
    after c only; with none received since, there is no cache and every channel is blank.
  */
  lemma CalibrationBarrierOnWire(cfg: Config, states: seq<State>, actions: seq<Action>, n: nat, c: nat) returns (j: nat)
    requires IsRun(cfg, states, actions) && n < |states|
    requires c < |states[n].wire| && CalibrationFrame(states[n].wire[c])
    ensures j < |states[n].log| && states[n].log[j] == Calibrated(c)
    ensures forall i | j < i <= |states[n].log| :: RestsAfter(cfg, states[n].log, i, c)
    ensures var samples := SinceReset(states[n].log);
            && (forall k | 0 <= k < |samples| :: samples[k].rx > c)
            && states[n].sanitizer == Replay(cfg.sanitize, samples).channels
            && states[n].cache == (if |samples| == 0 then None else Some(Replay(cfg.sanitize, samples).texts))
    ensures (forall k | c < k < |states[n].wire| :: !LoadcellFrame(states[n].wire[k])) ==>
              states[n].cache.None? && states[n].sanitizer == seq(10, _ => San.BLANK)
  {
    hide Replay;
    LoadcellsInRun(cfg, states, actions, n);
    var s, log := states[n], states[n].log;
    CalibrationListed(s.wire, c);
    j := CalibrationLogged(log, c);
    forall i | j < i <= |log|
      ensures RestsAfter(cfg, log, i, c)
    {
      BehindBarrier(cfg, states, actions, n, j, i, c);
    }
    assert RestsAfter(cfg, log, |log|, c);
    assert log[..|log|] == log;
    var samples := SinceReset(log);
    if |samples| > 0 {
      var p := SampleAfterReset(log, j, |samples| - 1);
      assert Justified(s.wire, log[p]);
    } else {
      BlankReplay(cfg);
    }
  }

  /** What is served at position i, and what lies behind it, was received after event c. */
  ghost predicate RestsAfter(cfg: Config, log: seq<LogEvent>, i: nat, c: nat)
    requires i <= |log|
  {
    var samples := SinceReset(log[..i]);
    && (forall k | 0 <= k < |samples| :: samples[k].rx > c)
    && (i < |log| && log[i].Served? ==> |samples| > 0 && log[i].texts == Replay(cfg.sanitize, samples).texts)
  }

  lemma BlankReplay(cfg: Config)
    ensures Replay(cfg.sanitize, []).channels == seq(10, _ => San.BLANK)
  {
  }

  // ---------------------------------------------------------------- the cache, both ways

  /**
    When a caller is served from the cache: exactly if the throttle is on and the newest sample
    since the last calibration is younger than the gap; every other caller queues for the line.
  */
  lemma CacheServesIff(cfg: Config, states: seq<State>, actions: seq<Action>, n: nat, id: nat)
    requires IsRun(cfg, states, actions) && n < |states| && Enabled(cfg, states[n], Enter(id))
    requires states[n].tasks[id].job.ReadLoadcells?
    ensures var s, s' := states[n], Next(cfg, states[n], Enter(id));
            var samples := SinceReset(s.log);
            && id in s'.tasks
            && (cfg.loadGap > 0.0 && |samples| > 0 && s.now - samples[|samples| - 1].time < cfg.loadGap ==>
                  && s'.tasks[id].phase.Finished?
                  && s'.log == s.log + [Served(id, Replay(cfg.sanitize, samples).texts, true, s.now)])
            && (cfg.loadGap <= 0.0 || |samples| == 0 || s.now - samples[|samples| - 1].time >= cfg.loadGap ==>
                  s'.tasks[id].phase.Queued? && s'.log == s.log)
  {
    hide Replay, SinceReset, LogSound, SamplesServed;
    LoadcellsInRun(cfg, states, actions, n);
  }

  /** Every accepted loadcell frame is served to the caller who asked for it. */
  lemma FramesAreServed(cfg: Config, states: seq<State>, actions: seq<Action>, n: nat, k: nat)
    requires IsRun(cfg, states, actions) && n < |states|
    requires k < |states[n].log| && states[n].log[k].Sampled?
    ensures var log, wire := states[n].log, states[n].wire;
            && k + 1 < |log| && log[k].rx < |wire|
            && log[k + 1].Served? && !log[k + 1].cached && log[k + 1].task == wire[log[k].rx].task
  {
    hide MemoryFollowsLog, LogSound;
    LoadcellsInRun(cfg, states, actions, n);
    assert ServedAt(states[n].wire, states[n].log, k);
  }
}

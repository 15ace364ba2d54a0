/**
  Timing of the wire over whole runs: spacing of loadcell requests, and quiet time after every
  complete frame.
*/
module EngineWire {
  import opened Basics
  import opened FrameCodec
  import opened Engine
  import opened EngineLocks

  // ---------------------------------------------------------------- timing

  /** The recorded times bound everything on the wire, and nothing lies in the future. */
  ghost predicate Clocked(s: State) {
    && (forall i | 0 <= i < |s.wire| :: Recorded(s, s.wire[i]))
    && (forall code | code in s.lastTx :: s.lastTx[code] <= s.now)
    && (s.lastRx.Some? ==> s.lastRx.value <= s.now)
  }

  ghost predicate Recorded(s: State, e: WireEvent) {
    && (e.Tx? ==> e.message.code in s.lastTx && e.time <= s.lastTx[e.message.code])
    && (e.Rx? ==> s.lastRx.Some? && e.time <= s.lastRx.value)
  }

  /** Any two loadcell requests on the wire are at least the configured gap apart. */
  ghost predicate Spaced(cfg: Config, wire: seq<WireEvent>) {
    forall i, j | 0 <= i < j < |wire| && IsLoadcellTx(wire[i]) && IsLoadcellTx(wire[j]) ::
      wire[j].time - wire[i].time >= cfg.loadGap
  }

  predicate IsLoadcellTx(e: WireEvent) {
    e.Tx? && e.message.code == RQIW
  }

  /** Every transmission keeps the quiet time after every earlier complete frame. */
  ghost predicate Quiet(cfg: Config, wire: seq<WireEvent>) {
    forall i, j | 0 <= i < j < |wire| && wire[i].Rx? && wire[j].Tx? ::
      wire[j].time - wire[i].time >= cfg.interGap
  }

  predicate QuietBy(cfg: Config, s: State, time: real) {
    s.lastRx.Some? ==> time >= s.lastRx.value + cfg.interGap
  }

  predicate SpacedBy(cfg: Config, s: State, code: Code, time: real) {
    code == RQIW && code in s.lastTx ==> time >= s.lastTx[code] + cfg.loadGap
  }

  /** What a transaction has already waited for, or will have when its timer runs out. */
  predicate Waited(cfg: Config, s: State, t: Task) {
    match t.phase
    case GapWait(u) => QuietBy(cfg, s, u)
    case WireWait(u) => QuietBy(cfg, s, s.now) && SpacedBy(cfg, s, CodeOf(t), u)
    case Draining => QuietBy(cfg, s, s.now) && SpacedBy(cfg, s, CodeOf(t), s.now)
    case _ => true
  }

  ghost predicate TimingSafe(cfg: Config, s: State) {
    && Clocked(s) && Spaced(cfg, s.wire) && Quiet(cfg, s.wire)
    && forall id | id in s.tasks :: Waited(cfg, s, s.tasks[id])
  }

  /** Nothing the timing gates look at has changed. */
  predicate SameRadio(s: State, s': State) {
    s'.now == s.now && s'.lastTx == s.lastTx && s'.lastRx == s.lastRx && s'.wire == s.wire
  }

  lemma SilentStep(cfg: Config, s: State, s': State, id: nat)
    requires TimingSafe(cfg, s) && SameRadio(s, s')
    requires id in s'.tasks && s'.tasks == s.tasks[id := s'.tasks[id]]
    requires Waited(cfg, s', s'.tasks[id])
    ensures TimingSafe(cfg, s')
  {
  }

  lemma TickKeepsTiming(cfg: Config, s: State, d: real)
    requires TimingSafe(cfg, s) && d >= 0.0
    ensures TimingSafe(cfg, s.(now := s.now + d))
  {
  }

  /** Other tasks are outside their transactions while this one is inside its own. */
  lemma OthersOutside(s: State, id: nat, other: nat)
    requires LocksAgree(s) && id in s.tasks && other in s.tasks && id != other
    requires InTransaction(s.tasks[id])
    ensures !InTransaction(s.tasks[other])
  {
  }

  lemma TransmitKeepsTiming(cfg: Config, s: State, id: nat)
    requires ValidConfig(cfg) && LocksAgree(s) && TimingSafe(cfg, s)
    requires id in s.tasks && s.tasks[id].phase.Draining?
    ensures TimingSafe(cfg, Move(WithTx(s, id), id, Listening))
  {
  }

  lemma HeardKeepsTiming(cfg: Config, s: State, s': State, id: nat, frame: FrameView)
    requires ValidConfig(cfg) && LocksAgree(s) && TimingSafe(cfg, s)
    requires id in s.tasks && s.tasks[id].phase.Listening?
    requires SameRadio(WithRx(s, id, frame), s')
    requires id in s'.tasks && s'.tasks == s.tasks[id := s'.tasks[id]]
    requires Waited(cfg, s', s'.tasks[id])
    ensures TimingSafe(cfg, s')
  {
  }

  // ---------------------------------------------------------------- effects of single actions

  /** Delivering a frame leaves the radio alone and no gate open. */
  lemma DeliverQuietly(cfg: Config, s: State, id: nat, frame: FrameView)
    requires id in s.tasks && |s.wire| > 0
    ensures var s' := Deliver(cfg, s, id, frame);
            && SameRadio(s, s') && s'.txns == s.txns
            && id in s'.tasks && s'.tasks == s.tasks[id := s'.tasks[id]]
            && !InTransaction(s'.tasks[id])
            && s'.tasks[id].job == s.tasks[id].job
  {
    hide Sample, Forget;
    match s.tasks[id].job {
      case ReadLoadcells =>
      case Calibrate =>
      case Simple(_) =>
      case OperateBolt(_) =>
    }
  }

  /** Actions that neither send nor hear: the acting task's gates are still honoured. */
  lemma SilentEffect(cfg: Config, s: State, a: Action)
    requires ValidConfig(cfg) && Clocked(s) && Enabled(cfg, s, a)
    requires !a.Tick? && !a.Transmit? && !a.Hear?
    requires a.Spawn? || Waited(cfg, s, s.tasks[a.id])
    ensures var s' := Next(cfg, s, a);
            && SameRadio(s, s')
            && a.id in s'.tasks && s'.tasks == s.tasks[a.id := s'.tasks[a.id]]
            && Waited(cfg, s', s'.tasks[a.id])
  {
    hide CacheHit;
  }

  lemma FailureEffect(cfg: Config, s: State, id: nat)
    requires id in s.tasks
    ensures var s' := AfterFailure(cfg, s, id);
            && SameRadio(s, s') && s'.txns == s.txns
            && id in s'.tasks && s'.tasks == s.tasks[id := s'.tasks[id]]
            && (s'.tasks[id].phase.BackingOff? || s'.tasks[id].phase.Closing?)
            && (s'.tasks[id].phase.BackingOff? ==> s.tasks[id].attempt < cfg.maxRetries)
            && s'.tasks[id] == s.tasks[id].(phase := s'.tasks[id].phase)
  {
    hide Backoff;
  }

  lemma HearKeepsTiming(cfg: Config, s: State, id: nat, reply: Reply)
    requires ValidConfig(cfg) && LocksAgree(s) && TimingSafe(cfg, s)
    requires id in s.tasks && s.tasks[id].phase.Listening?
    ensures TimingSafe(cfg, HearReply(cfg, s, id, reply))
  {
    hide Accepted, Deliver, AfterFailure, TimingSafe;
    var s' := HearReply(cfg, s, id, reply);
    match reply {
      case Arrived(frame) =>
        var heard := WithRx(s, id, frame);
        DeliverQuietly(cfg, heard, id, frame);
        FailureEffect(cfg, heard, id);
        HeardKeepsTiming(cfg, s, s', id, frame);
      case Fault => SilentStep(cfg, s, s', id);
      case _ =>
        FailureEffect(cfg, s, id);
        SilentStep(cfg, s, s', id);
    }
  }

  lemma TimingStep(cfg: Config, s: State, a: Action)
    requires ValidConfig(cfg) && LocksAgree(s) && TimingSafe(cfg, s) && Enabled(cfg, s, a)
    ensures TimingSafe(cfg, Next(cfg, s, a))
  {
    if a.Tick? {
      TickKeepsTiming(cfg, s, a.d);
    } else if a.Transmit? {
      TransmitKeepsTiming(cfg, s, a.id);
    } else if a.Hear? {
      HearKeepsTiming(cfg, s, a.id, a.reply);
    } else {
      SilentEffect(cfg, s, a);
      SilentStep(cfg, s, Next(cfg, s, a), a.id);
    }
  }

  /**
    In every run, with any number of tasks, any replies, retries, calibrations and
    cancellations: loadcell requests keep their distance and every transmission keeps the
    quiet time after every complete frame, accepted or discarded.
  */
  lemma {:induction false} TimingInRun(cfg: Config, states: seq<State>, actions: seq<Action>, i: nat)
    requires ValidConfig(cfg) && IsRun(cfg, states, actions) && i < |states|
    ensures TimingSafe(cfg, states[i])
    ensures Spaced(cfg, states[i].wire) && Quiet(cfg, states[i].wire)
  {
    if i > 0 {
      TimingInRun(cfg, states, actions, i - 1);
      LocksInRun(cfg, states, actions, i - 1);
      TimingStep(cfg, states[i - 1], actions[i - 1]);
    }
  }
}

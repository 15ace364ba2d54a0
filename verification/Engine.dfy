/**
  The service as a step machine: any number of tasks share one serial line.  One action is the
  code between two suspension points (some are split further, which only adds interleavings);
  the device, the scheduler and cancellation are arbitrary.  The wire and the log record what
  was transmitted, received, sampled, calibrated and handed to callers.
*/
module Engine {
  import opened Basics
  import opened FrameCodec
  import San = Sanitizer

  datatype Config = Config(
    maxRetries: nat,
    interGap: real,         // quiet time from a complete RX to the next TX
    loadGap: real,          // minimum spacing of loadcell requests
    firstDelay: real,
    multiplier: real,
    settle: real,
    poll: real,
    confirm: real,          // how long a deadbolt operation waits for the sensor
    sanitize: San.Config)

  predicate ValidConfig(cfg: Config) {
    && cfg.maxRetries >= 1 && cfg.interGap >= 0.0 && cfg.loadGap >= 0.0
    && cfg.firstDelay > 0.0 && cfg.multiplier >= 1.0
    && cfg.settle >= 0.0 && cfg.poll >= 0.0 && cfg.confirm > 0.0
  }

  // ---------------------------------------------------------------- what a command makes of a frame

  datatype Body =
    | Unreadable                          // does not parse, or holds an unknown state
    | Empty
    | Weights(values: seq<string>)
    | BoltState(unlocked: bool)

  datatype FrameView = FrameView(valid: bool, code: Option<Code>, body: Body)

  datatype Reply = Silence | Broken | Fault | Arrived(frame: FrameView)

  predicate Accepted(frame: FrameView, code: Code) {
    frame.valid && frame.code == Some(code)
  }

  // ---------------------------------------------------------------- tasks

  /** A request as printed: Frame(CodeBytes(code) + data). */
  datatype Message = Message(code: Code, data: seq<byte>)

  datatype Job = ReadLoadcells | Calibrate | Simple(message: Message) | OperateBolt(open: bool)

  /** RQIW, MCLZ and MCDC are sent by their own commands only. */
  predicate JobOk(job: Job) {
    job.Simple? ==> job.message.code != RQIW && job.message.code != MCLZ && job.message.code != MCDC
  }

  datatype Phase =
    | Idle | Queued | Opening | GapWait(until: real) | WireWait(until: real) | Draining | Listening
    | BackingOff(until: real) | Closing | Settling(until: real) | Pausing(until: real) | Finished

  /** Progress of one deadbolt operation; mark is the wire length when it took its lock. */
  datatype BoltOp = BoltOp(mark: nat, reading: bool, deadline: real, readings: nat)

  datatype Task = Task(job: Job, phase: Phase, txn: nat, attempt: nat, bolt: BoltOp)

  /** The message the task is sending, or will send next. */
  function MessageOf(t: Task): Message {
    match t.job
    case ReadLoadcells => Message(RQIW, [])
    case Calibrate => Message(MCLZ, [])
    case Simple(message) => message
    case OperateBolt(open) =>
      if t.bolt.reading then Message(RQID, []) else Message(MCDC, [if open then OPEN_BYTE else CLOSE_BYTE])
  }

  function CodeOf(t: Task): Code {
    MessageOf(t).code
  }

  predicate InTransaction(t: Task) {
    match t.phase
    case Opening => true
    case GapWait(_) => true
    case WireWait(_) => true
    case Draining => true
    case Listening => true
    case BackingOff(_) => true
    case Closing => true
    case _ => false
  }

  predicate HoldsGate(t: Task) {
    t.job.ReadLoadcells? && !t.phase.Idle? && !t.phase.Finished?
  }

  predicate HoldsBolt(t: Task) {
    t.job.OperateBolt? && !t.phase.Idle? && !t.phase.Finished?
  }

  // ---------------------------------------------------------------- state

  datatype WireEvent =
    | Tx(task: nat, txn: nat, attempt: nat, message: Message, time: real)
    | Rx(task: nat, txn: nat, attempt: nat, message: Message, time: real, frame: FrameView)

  datatype LogEvent =
    | Sampled(rx: nat, values: seq<string>, time: real)
    | Calibrated(rx: nat)
    | Served(task: nat, texts: seq<string>, cached: bool, time: real)
    | Confirmed(task: nat, open: bool, unlocked: bool, rx: nat, time: real, op: BoltOp)

  datatype State = State(
    now: real,
    tasks: map<nat, Task>,
    serialOwner: Option<nat>,
    gateOwner: Option<nat>,
    boltOwner: Option<nat>,
    txns: nat,
    lastTx: map<Code, real>,
    lastRx: Option<real>,
    cache: Option<seq<string>>,
    cacheTs: real,
    sanitizer: seq<San.Channel>,
    wire: seq<WireEvent>,
    log: seq<LogEvent>)

  function Init(): State {
    State(0.0, map[], None, None, None, 0, map[], None, None, 0.0, San.BlankChannels(), [], [])
  }

  datatype Action =
    | Tick(d: real)
    | Spawn(id: nat, job: Job)
    | Enter(id: nat)
    | TakeSerial(id: nat)
    | Opened(id: nat, ok: bool)
    | GapOver(id: nat)
    | WireOver(id: nat)
    | DrainFails(id: nat)
    | Transmit(id: nat)
    | Hear(id: nat, reply: Reply)
    | BackoffOver(id: nat)
    | Closed(id: nat)
    | SettleOver(id: nat)
    | PauseOver(id: nat)
    | Cancel(id: nat)

  // ---------------------------------------------------------------- small updates

  function Put(s: State, id: nat, t: Task): State {
    s.(tasks := s.tasks[id := t])
  }

  function Move(s: State, id: nat, phase: Phase): State
    requires id in s.tasks
  {
    Put(s, id, s.tasks[id].(phase := phase))
  }

  function Dropped(owner: Option<nat>, id: nat): Option<nat> {
    if owner == Some(id) then None else owner
  }

  /** The task ends: every lock it still holds is released. */
  function Finish(s: State, id: nat): State
    requires id in s.tasks
  {
    Move(s, id, Finished).(
      serialOwner := Dropped(s.serialOwner, id),
      gateOwner := Dropped(s.gateOwner, id),
      boltOwner := Dropped(s.boltOwner, id))
  }

  predicate CacheHit(cfg: Config, s: State) {
    cfg.loadGap > 0.0 && s.cache.Some? && s.now - s.cacheTs < cfg.loadGap
  }

  /** End of the quiet time after the last complete frame. */
  function GapUntil(cfg: Config, s: State): real {
    if cfg.interGap > 0.0 && s.lastRx.Some? then Max(s.now, s.lastRx.value + cfg.interGap) else s.now
  }

  function MinInterval(cfg: Config, code: Code): real {
    if code == RQIW then cfg.loadGap else 0.0
  }

  /** End of the spacing after the last transmission of the same request. */
  function WireUntil(cfg: Config, s: State, code: Code): real {
    if MinInterval(cfg, code) > 0.0 && code in s.lastTx then
      Max(s.now, s.lastTx[code] + MinInterval(cfg, code))
    else s.now
  }

  /** Delay after the given attempt failed. */
  function Backoff(cfg: Config, attempt: nat): real {
    cfg.firstDelay * Power(cfg.multiplier, if attempt > 0 then attempt - 1 else 0)
  }

  /** A failed attempt backs off, the last one closes the connection. */
  function AfterFailure(cfg: Config, s: State, id: nat): State
    requires id in s.tasks
  {
    var t := s.tasks[id];
    Move(s, id, if t.attempt < cfg.maxRetries then BackingOff(s.now + Backoff(cfg, t.attempt)) else Closing)
  }

  function WithTx(s: State, id: nat): State
    requires id in s.tasks
  {
    var t := s.tasks[id];
    s.(lastTx := s.lastTx[CodeOf(t) := s.now],
       wire := s.wire + [Tx(id, t.txn, t.attempt, MessageOf(t), s.now)])
  }

  function WithRx(s: State, id: nat, frame: FrameView): State
    requires id in s.tasks
  {
    var t := s.tasks[id];
    s.(lastRx := Some(s.now),
       wire := s.wire + [Rx(id, t.txn, t.attempt, MessageOf(t), s.now, frame)])
  }

  /** Tasks, locks, clocks and the wire are untouched. */
  predicate SameControl(s: State, s': State) {
    && s'.now == s.now && s'.tasks == s.tasks && s'.txns == s.txns
    && s'.serialOwner == s.serialOwner && s'.gateOwner == s.gateOwner && s'.boltOwner == s.boltOwner
    && s'.lastTx == s.lastTx && s'.lastRx == s.lastRx && s'.wire == s.wire
  }

  function SanitizeNow(cfg: Config, s: State, values: seq<string>): San.Framed {
    if cfg.sanitize.enabled then San.SanitizeFrame(cfg.sanitize, s.sanitizer, values, s.now)
    else San.Framed(s.sanitizer, values)
  }

  /** A fresh loadcell frame is sanitized, cached and served without a suspension. */
  function Sample(cfg: Config, s: State, id: nat, values: seq<string>): (s': State)
    requires id in s.tasks && |s.wire| > 0
    ensures SameControl(s, s')
  {
    var framed := SanitizeNow(cfg, s, values);
    s.(sanitizer := framed.channels, cache := Some(framed.texts), cacheTs := s.now,
       log := s.log + [Sampled(|s.wire| - 1, values, s.now), Served(id, framed.texts, false, s.now)])
  }

  /** A calibration drops the cache and the sanitizer's memory without a suspension. */
  function Forget(cfg: Config, s: State): (s': State)
    requires |s.wire| > 0
    ensures SameControl(s, s')
  {
    s.(cache := None, cacheTs := 0.0, sanitizer := San.BlankChannels(),
       log := s.log + [Calibrated(|s.wire| - 1)])
  }

  /** What happens between the receipt of an accepted frame and the next suspension. */
  function Deliver(cfg: Config, s: State, id: nat, frame: FrameView): State
    requires id in s.tasks && |s.wire| > 0
  {
    var t := s.tasks[id];
    match t.job
    case ReadLoadcells =>
      if frame.body.Weights? then Finish(Sample(cfg, s, id, frame.body.values), id) else Finish(s, id)
    case Calibrate =>
      if frame.body.Unreadable? then Finish(s, id) else Finish(Forget(cfg, s), id)
    case Simple(_) => Finish(s, id)
    case OperateBolt(open) =>
      if !frame.body.BoltState? then Finish(s, id)
      else if !t.bolt.reading then
        Move(s, id, Settling(s.now + cfg.settle)).(serialOwner := Dropped(s.serialOwner, id))
      else
        var op := t.bolt.(readings := t.bolt.readings + 1);
        if frame.body.unlocked == open || s.now >= op.deadline then
          Finish(s.(log := s.log + [Confirmed(id, open, frame.body.unlocked, |s.wire| - 1, s.now, op)]), id)
        else
          Put(s, id, t.(bolt := op, phase := Pausing(s.now + cfg.poll)))
            .(serialOwner := Dropped(s.serialOwner, id))
  }

  // ---------------------------------------------------------------- actions

  predicate Due(phase: Phase, now: real) {
    match phase
    case GapWait(u) => now >= u
    case WireWait(u) => now >= u
    case BackingOff(u) => now >= u
    case Settling(u) => now >= u
    case Pausing(u) => now >= u
    case _ => true
  }

  predicate Enabled(cfg: Config, s: State, a: Action) {
    match a
    case Tick(d) => d >= 0.0
    case Spawn(id, job) => id !in s.tasks && JobOk(job)
    case Cancel(id) => id in s.tasks && !s.tasks[id].phase.Finished?
    case _ => a.id in s.tasks && Due(s.tasks[a.id].phase, s.now) && Ready(s, s.tasks[a.id], a)
  }

  /** The task is suspended where the action resumes, and the lock it needs is free. */
  predicate Ready(s: State, t: Task, a: Action) {
    match a
    case Enter(_) =>
      && t.phase.Idle?
      && (t.job.ReadLoadcells? ==> s.gateOwner.None?)
      && (t.job.OperateBolt? ==> s.boltOwner.None?)
    case TakeSerial(_) => t.phase.Queued? && s.serialOwner.None?
    case Opened(_, _) => t.phase.Opening?
    case GapOver(_) => t.phase.GapWait?
    case WireOver(_) => t.phase.WireWait?
    case DrainFails(_) => t.phase.Draining?
    case Transmit(_) => t.phase.Draining?
    case Hear(_, _) => t.phase.Listening?
    case BackoffOver(_) => t.phase.BackingOff?
    case Closed(_) => t.phase.Closing?
    case SettleOver(_) => t.phase.Settling?
    case PauseOver(_) => t.phase.Pausing?
    case _ => false
  }

  function EnterTask(cfg: Config, s: State, id: nat): State
    requires id in s.tasks
  {
    var t := s.tasks[id];
    match t.job
    case ReadLoadcells =>
      if CacheHit(cfg, s) then
        Finish(s.(log := s.log + [Served(id, s.cache.value, true, s.now)]), id)
      else Move(s, id, Queued).(gateOwner := Some(id))
    case OperateBolt(_) =>
      Put(s, id, t.(phase := Queued, bolt := BoltOp(|s.wire|, false, 0.0, 0))).(boltOwner := Some(id))
    case _ => Move(s, id, Queued)
  }

  function HearReply(cfg: Config, s: State, id: nat, reply: Reply): State
    requires id in s.tasks
  {
    match reply
    case Silence => AfterFailure(cfg, s, id)
    case Broken => AfterFailure(cfg, s, id)
    case Fault => Move(s, id, Closing)
    case Arrived(frame) =>
      var heard := WithRx(s, id, frame);
      if Accepted(frame, CodeOf(s.tasks[id])) then Deliver(cfg, heard, id, frame)
      else AfterFailure(cfg, heard, id)
  }

  function Next(cfg: Config, s: State, a: Action): State
    requires Enabled(cfg, s, a)
  {
    match a
    case Tick(d) => s.(now := s.now + d)
    case Spawn(id, job) => Put(s, id, Task(job, Idle, 0, 0, BoltOp(0, false, 0.0, 0)))
    case Enter(id) => EnterTask(cfg, s, id)
    case TakeSerial(id) =>
      Put(s, id, s.tasks[id].(phase := Opening, txn := s.txns + 1, attempt := 1))
        .(serialOwner := Some(id), txns := s.txns + 1)
    case Opened(id, ok) => if ok then Move(s, id, GapWait(GapUntil(cfg, s))) else Finish(s, id)
    case GapOver(id) => Move(s, id, WireWait(WireUntil(cfg, s, CodeOf(s.tasks[id]))))
    case WireOver(id) => Move(s, id, Draining)
    case DrainFails(id) => Move(s, id, Closing)
    case Transmit(id) => Move(WithTx(s, id), id, Listening)
    case Hear(id, reply) => HearReply(cfg, s, id, reply)
    case BackoffOver(id) =>
      Put(s, id, s.tasks[id].(phase := GapWait(GapUntil(cfg, s)), attempt := s.tasks[id].attempt + 1))
    case Closed(id) => Finish(s, id)
    case SettleOver(id) =>
      Put(s, id, s.tasks[id].(phase := Queued,
        bolt := s.tasks[id].bolt.(reading := true, deadline := s.now + cfg.confirm, readings := 0)))
    case PauseOver(id) => Move(s, id, Queued)
    case Cancel(id) => Finish(s, id)
  }

  // ---------------------------------------------------------------- runs

  predicate IsRun(cfg: Config, states: seq<State>, actions: seq<Action>) {
    && |states| == |actions| + 1
    && states[0] == Init()
    && forall i | 0 <= i < |actions| :: Enabled(cfg, states[i], actions[i]) && states[i + 1] == Next(cfg, states[i], actions[i])
  }

  // ---------------------------------------------------------------- bridge to bytes

  function ToText(bytes: seq<byte>): string {
    seq(|bytes|, i requires 0 <= i < |bytes| => bytes[i] as char)
  }

  function ToTexts(fields: seq<seq<byte>>): seq<string> {
    seq(|fields|, i requires 0 <= i < |fields| => ToText(fields[i]))
  }

  /** How the retry loop and the commands see a frame the reader cut. */
  function View(frame: seq<byte>): FrameView {
    var codes := ResponseCodes(frame);
    FrameView(
      ChecksumValid(frame),
      if codes.Some? then LookupCode(codes.value) else None,
      match ParseResponse(frame)
      case None => Unreadable
      case Some(response) =>
        match response.data
        case Loadcells(readings) => Weights(ToTexts(readings))
        case Bolt(state) => if state.Raw? then Unreadable else BoltState(state.UNLOCK?)
        case Status(door, deadbolt) =>
          var d, b := ToText(door), ToText(deadbolt);
          if (d == "OPENED" || d == "CLOSED") && (b == "UNLOCK" || b == "LOCKED")
          then BoltState(b == "UNLOCK") else Unreadable
        case _ => Empty)
  }

  /** The abstract acceptance is the retry loop's acceptance of the bytes. */
  lemma ViewAccepts(frame: seq<byte>, code: Code)
    ensures Accepted(View(frame), code) <==> Accepts(frame, Some(code))
  {
    hide ParseResponse, ChecksumValid;
  }
}

/**
  Deadbolt operations over whole runs: from taking the operation lock to the reported sensor
  reading no other task commands the deadbolt, the command was acknowledged and has settled,
  and the reading confirms it or was checked at or after the deadline.
*/
module EngineBolt {
  import opened Basics
  import opened FrameCodec
  import opened Engine
  import opened EngineLocks
  import opened EngineWire
  import opened EngineBlocks

  predicate IsCommand(e: WireEvent) {
    e.Tx? && e.message.code == MCDC
  }

  /** The device's acknowledgement of this task's own command. */
  predicate Acknowledges(e: WireEvent, task: nat, open: bool) {
    && e.Rx? && e.task == task && Accepted(e.frame, MCDC)
    && e.message == Message(MCDC, [if open then OPEN_BYTE else CLOSE_BYTE])
  }

  /** Since the mark only this task has commanded the deadbolt. */
  ghost predicate Exclusive(wire: seq<WireEvent>, mark: nat, task: nat) {
    forall i | mark <= i < |wire| && IsCommand(wire[i]) :: wire[i].task == task
  }

  /** Event c acknowledges the command, settled by the given time; no command of anyone follows it. */
  ghost predicate Commanded(cfg: Config, wire: seq<WireEvent>, mark: nat, task: nat, open: bool, settled: real, c: nat) {
    && mark <= c < |wire| && Acknowledges(wire[c], task, open) && wire[c].time + cfg.settle <= settled
    && forall i | c < i < |wire| :: !IsCommand(wire[i])
  }

  /** n pauses between sensor readings. */
  function Pauses(cfg: Config, n: nat): real {
    if n == 0 then 0.0 else Pauses(cfg, n - 1) + cfg.poll
  }

  /** When the deadline timer of an operation was started. */
  function Started(cfg: Config, op: BoltOp): real {
    op.deadline - cfg.confirm
  }

  /** Every reading but the last was early, and the pauses between them have passed. */
  predicate Paced(cfg: Config, op: BoltOp, settled: real) {
    && Started(cfg, op) + Pauses(cfg, op.readings) <= settled
    && (op.readings > 0 ==> Pauses(cfg, op.readings - 1) < cfg.confirm)
  }

  predicate IsQuestion(e: WireEvent, task: nat) {
    e.Tx? && e.task == task && e.message.code == RQID
  }

  /** Since the mark the task has asked for the sensor only after its command had settled. */
  ghost predicate AskedSettled(cfg: Config, wire: seq<WireEvent>, task: nat, op: BoltOp) {
    forall i | op.mark <= i < |wire| && IsQuestion(wire[i], task) :: op.reading && wire[i].time >= Started(cfg, op)
  }

  /** What holds of a task while it holds the operation lock. */
  ghost predicate Operating(cfg: Config, now: real, wire: seq<WireEvent>, id: nat, t: Task) {
    HoldsBolt(t) ==>
      && t.bolt.mark <= |wire| && Exclusive(wire, t.bolt.mark, id) && AskedSettled(cfg, wire, id, t.bolt)
      && (t.phase.Settling? ==>
            !t.bolt.reading && exists c :: Commanded(cfg, wire, t.bolt.mark, id, t.job.open, t.phase.until, c))
      && (t.bolt.reading ==>
            && (exists c :: Commanded(cfg, wire, t.bolt.mark, id, t.job.open, Started(cfg, t.bolt), c))
            && Paced(cfg, t.bolt, if t.phase.Pausing? then t.phase.until else now))
      && (t.phase.Pausing? ==> t.bolt.reading)
  }

  /** What a reported result means. */
  ghost predicate ReportSound(cfg: Config, wire: seq<WireEvent>, e: LogEvent)
    requires e.Confirmed?
  {
    && e.op.mark <= e.rx < |wire|
    && Exclusive(wire[..e.rx], e.op.mark, e.task) && AskedSettled(cfg, wire[..e.rx], e.task, e.op)
    && (exists c :: Commanded(cfg, wire[..e.rx], e.op.mark, e.task, e.open, Started(cfg, e.op), c))
    && IsReading(wire[e.rx], e.task, e.unlocked) && wire[e.rx].time == e.time
    && (e.unlocked == e.open || e.time >= e.op.deadline)
    && e.op.readings >= 1 && Started(cfg, e.op) + Pauses(cfg, e.op.readings - 1) <= e.time
    && (e.op.readings >= 2 ==> Pauses(cfg, e.op.readings - 2) < cfg.confirm)
  }

  predicate IsReading(e: WireEvent, task: nat, unlocked: bool) {
    e.Rx? && e.task == task && e.message.code == RQID && Accepted(e.frame, RQID) && e.frame.body == BoltState(unlocked)
  }

  ghost predicate ReportsSound(cfg: Config, wire: seq<WireEvent>, log: seq<LogEvent>) {
    forall i | 0 <= i < |log| && log[i].Confirmed? :: ReportSound(cfg, wire, log[i])
  }

  ghost predicate BoltSafe(cfg: Config, s: State) {
    && ReportsSound(cfg, s.wire, s.log)
    && forall id | id in s.tasks :: Operating(cfg, s.now, s.wire, id, s.tasks[id])
  }

  // ---------------------------------------------------------------- frame

  lemma CommandedKept(cfg: Config, wire: seq<WireEvent>, e: WireEvent, mark: nat, task: nat, open: bool, settled: real)
    requires !IsCommand(e)
    requires exists c :: Commanded(cfg, wire, mark, task, open, settled, c)
    ensures exists c :: Commanded(cfg, wire + [e], mark, task, open, settled, c)
  {
    var c :| Commanded(cfg, wire, mark, task, open, settled, c);
    assert Commanded(cfg, wire + [e], mark, task, open, settled, c);
  }

  lemma CommandedLater(cfg: Config, wire: seq<WireEvent>, mark: nat, task: nat, open: bool, settled: real, later: real)
    requires settled <= later
    requires exists c :: Commanded(cfg, wire, mark, task, open, settled, c)
    ensures exists c :: Commanded(cfg, wire, mark, task, open, later, c)
  {
    var c :| Commanded(cfg, wire, mark, task, open, settled, c);
    assert Commanded(cfg, wire, mark, task, open, later, c);
  }

  /** One more event, that is no command of another task, and time passing, are harmless. */
  lemma OperatingKept(cfg: Config, now: real, now': real, wire: seq<WireEvent>, e: WireEvent, id: nat, t: Task)
    requires Operating(cfg, now, wire, id, t) && now <= now'
    requires HoldsBolt(t) && IsCommand(e) ==> e.task == id && !t.bolt.reading && !t.phase.Settling?
    requires HoldsBolt(t) && IsQuestion(e, id) ==> t.bolt.reading && e.time >= Started(cfg, t.bolt)
    ensures Operating(cfg, now', wire + [e], id, t)
  {
    if HoldsBolt(t) && !IsCommand(e) {
      if t.phase.Settling? {
        CommandedKept(cfg, wire, e, t.bolt.mark, id, t.job.open, t.phase.until);
      }
      if t.bolt.reading {
        CommandedKept(cfg, wire, e, t.bolt.mark, id, t.job.open, Started(cfg, t.bolt));
      }
    }
  }

  lemma ReportsKept(cfg: Config, wire: seq<WireEvent>, e: WireEvent, log: seq<LogEvent>)
    requires ReportsSound(cfg, wire, log)
    ensures ReportsSound(cfg, wire + [e], log)
  {
    forall i | 0 <= i < |log| && log[i].Confirmed?
      ensures ReportSound(cfg, wire + [e], log[i])
    {
      assert (wire + [e])[..log[i].rx] == wire[..log[i].rx];
    }
  }

  /** A step of one task that adds nothing to the wire and reports nothing. */
  lemma SilentKeepsBolt(cfg: Config, s: State, s': State, id: nat)
    requires BoltSafe(cfg, s) && s'.wire == s.wire && s'.now == s.now
    requires ReportsSound(cfg, s'.wire, s'.log)
    requires id in s'.tasks && s'.tasks == s.tasks[id := s'.tasks[id]]
    requires Operating(cfg, s'.now, s'.wire, id, s'.tasks[id])
    ensures BoltSafe(cfg, s')
  {
    hide Operating, ReportsSound;
  }

  /** A step of one task that adds one event to the wire. */
  lemma EventKeepsBolt(cfg: Config, s: State, s': State, id: nat, e: WireEvent)
    requires LocksAgree(s) && BoltSafe(cfg, s) && s'.wire == s.wire + [e] && s'.now == s.now
    requires id in s.tasks && e.task == id && (IsCommand(e) ==> HoldsBolt(s.tasks[id]))
    requires ReportsSound(cfg, s'.wire, s'.log)
    requires id in s'.tasks && s'.tasks == s.tasks[id := s'.tasks[id]]
    requires Operating(cfg, s'.now, s'.wire, id, s'.tasks[id])
    ensures BoltSafe(cfg, s')
  {
    hide Operating, ReportsSound;
    forall other | other in s'.tasks
      ensures Operating(cfg, s'.now, s'.wire, other, s'.tasks[other])
    {
      if other != id {
        assert LocksAgreeAt(s, id) && LocksAgreeAt(s, other);
        OperatingKept(cfg, s.now, s'.now, s.wire, e, other, s.tasks[other]);
      }
    }
  }

  // ---------------------------------------------------------------- steps

  lemma TickKeepsBolt(cfg: Config, s: State, d: real)
    requires BoltSafe(cfg, s) && d >= 0.0
    ensures BoltSafe(cfg, s.(now := s.now + d))
  {
  }

  /** Actions that neither send nor hear report nothing. */
  lemma SilentLog(cfg: Config, s: State, a: Action)
    requires Enabled(cfg, s, a) && !a.Tick? && !a.Transmit? && !a.Hear?
    requires ReportsSound(cfg, s.wire, s.log)
    ensures var s' := Next(cfg, s, a);
            && s'.wire == s.wire && s'.now == s.now && ReportsSound(cfg, s'.wire, s'.log)
            && a.id in s'.tasks && s'.tasks == s.tasks[a.id := s'.tasks[a.id]]
  {
    hide CacheHit, GapUntil, WireUntil, ReportSound;
  }

  /** Where an action that neither sends nor hears leaves its own task. */
  lemma SilentOperating(cfg: Config, s: State, a: Action)
    requires ValidConfig(cfg) && Enabled(cfg, s, a) && !a.Tick? && !a.Transmit? && !a.Hear?
    requires a.Spawn? || Operating(cfg, s.now, s.wire, a.id, s.tasks[a.id])
    ensures var s' := Next(cfg, s, a);
            a.id in s'.tasks && Operating(cfg, s'.now, s'.wire, a.id, s'.tasks[a.id])
  {
    hide CacheHit, GapUntil, WireUntil, Commanded;
    if a.SettleOver? {
      var t, t' := s.tasks[a.id], Next(cfg, s, a).tasks[a.id];
      assert Started(cfg, t'.bolt) == s.now;
      if HoldsBolt(t) {
        CommandedLater(cfg, s.wire, t.bolt.mark, a.id, t.job.open, t.phase.until, s.now);
      }
    }
  }

  lemma {:induction false} PausesNonNegative(cfg: Config, n: nat)
    requires cfg.poll >= 0.0
    ensures Pauses(cfg, n) >= 0.0
  {
    if n > 0 {
      PausesNonNegative(cfg, n - 1);
    }
  }

  lemma TransmitKeepsBolt(cfg: Config, s: State, id: nat)
    requires ValidConfig(cfg) && LocksAgree(s) && BoltSafe(cfg, s) && Enabled(cfg, s, Transmit(id))
    ensures BoltSafe(cfg, Next(cfg, s, Transmit(id)))
  {
    hide ReportsSound;
    assert LocksAgreeAt(s, id) && Operating(cfg, s.now, s.wire, id, s.tasks[id]);
    var s' := Next(cfg, s, Transmit(id));
    var e := s'.wire[|s.wire|];
    ReportsKept(cfg, s.wire, e, s.log);
    PausesNonNegative(cfg, s.tasks[id].bolt.readings);
    OperatingKept(cfg, s.now, s.now, s.wire, e, id, s.tasks[id]);
    EventKeepsBolt(cfg, s, s', id, e);
  }

  /** The operation goes on: the command is acknowledged, or a reading was too early. */
  lemma DeliverOperating(cfg: Config, s: State, id: nat, frame: FrameView)
    requires ValidConfig(cfg) && id in s.tasks && s.tasks[id].phase.Listening?
    requires Operating(cfg, s.now, s.wire, id, s.tasks[id]) && Accepted(frame, CodeOf(s.tasks[id]))
    ensures var heard := WithRx(s, id, frame);
            var s' := Deliver(cfg, heard, id, frame);
            id in s'.tasks && Operating(cfg, s'.now, s'.wire, id, s'.tasks[id])
  {
    hide Sample, Forget;
    var heard := WithRx(s, id, frame);
    var t, t' := s.tasks[id], Deliver(cfg, heard, id, frame).tasks[id];
    var w := heard.wire[|s.wire|];
    OperatingKept(cfg, s.now, s.now, s.wire, w, id, t);
    if HoldsBolt(t') && t'.phase.Settling? {
      assert Commanded(cfg, heard.wire, t.bolt.mark, id, t.job.open, t'.phase.until, |s.wire|);
    } else if HoldsBolt(t') {
      assert t'.phase.Pausing? && t.bolt.reading;
      assert Started(cfg, t'.bolt) == Started(cfg, t.bolt);
      assert Pauses(cfg, t'.bolt.readings) == Pauses(cfg, t.bolt.readings) + cfg.poll;
    }
  }

  /** A report is sound when it is made. */
  lemma NewReport(cfg: Config, s: State, id: nat, frame: FrameView)
    requires id in s.tasks && s.tasks[id].phase.Listening? && HoldsBolt(s.tasks[id])
    requires Operating(cfg, s.now, s.wire, id, s.tasks[id]) && Accepted(frame, CodeOf(s.tasks[id]))
    requires s.tasks[id].bolt.reading && frame.body.BoltState?
    requires var t := s.tasks[id]; frame.body.unlocked == t.job.open || s.now >= t.bolt.deadline
    ensures var t, heard := s.tasks[id], WithRx(s, id, frame);
            var op := t.bolt.(readings := t.bolt.readings + 1);
            ReportSound(cfg, heard.wire, Confirmed(id, t.job.open, frame.body.unlocked, |s.wire|, s.now, op))
  {
    hide Commanded;
    var t, heard := s.tasks[id], WithRx(s, id, frame);
    var op := t.bolt.(readings := t.bolt.readings + 1);
    assert heard.wire[..|s.wire|] == s.wire;
    assert Started(cfg, op) == Started(cfg, t.bolt);
    assert IsReading(heard.wire[|s.wire|], id, frame.body.unlocked);
  }

  lemma DeliverReports(cfg: Config, s: State, id: nat, frame: FrameView)
    requires id in s.tasks && s.tasks[id].phase.Listening?
    requires ReportsSound(cfg, s.wire, s.log)
    requires Operating(cfg, s.now, s.wire, id, s.tasks[id]) && Accepted(frame, CodeOf(s.tasks[id]))
    ensures var heard := WithRx(s, id, frame);
            var s' := Deliver(cfg, heard, id, frame);
            s'.wire == heard.wire && ReportsSound(cfg, s'.wire, s'.log)
  {
    hide ReportSound, Operating, Accepted, SanitizeNow;
    var heard := WithRx(s, id, frame);
    var s' := Deliver(cfg, heard, id, frame);
    ReportsKept(cfg, s.wire, heard.wire[|s.wire|], s.log);
    if s.tasks[id].job.OperateBolt? && s'.log != s.log {
      NewReport(cfg, s, id, frame);
    }
  }

  lemma HearKeepsBolt(cfg: Config, s: State, id: nat, reply: Reply)
    requires ValidConfig(cfg) && LocksAgree(s) && BoltSafe(cfg, s) && Enabled(cfg, s, Hear(id, reply))
    ensures BoltSafe(cfg, HearReply(cfg, s, id, reply))
  {
    hide Accepted, Deliver, AfterFailure, ReportsSound, Commanded, Exclusive, AskedSettled;
    var s', t := HearReply(cfg, s, id, reply), s.tasks[id];
    assert Operating(cfg, s.now, s.wire, id, t);
    if reply.Arrived? {
      var heard := WithRx(s, id, reply.frame);
      var w := heard.wire[|s.wire|];
      if Accepted(reply.frame, CodeOf(t)) {
        DeliverOperating(cfg, s, id, reply.frame);
        DeliverReports(cfg, s, id, reply.frame);
        DeliverQuietly(cfg, heard, id, reply.frame);
      } else {
        FailureEffect(cfg, heard, id);
        FailureLog(cfg, heard, id);
        ReportsKept(cfg, s.wire, w, s.log);
        OperatingKept(cfg, s.now, s.now, s.wire, w, id, t);
      }
      EventKeepsBolt(cfg, s, s', id, w);
    } else {
      FailureEffect(cfg, s, id);
      FailureLog(cfg, s, id);
      SilentKeepsBolt(cfg, s, s', id);
    }
  }

  lemma FailureLog(cfg: Config, s: State, id: nat)
    requires id in s.tasks
    ensures AfterFailure(cfg, s, id).log == s.log
  {
    hide Backoff;
  }

  lemma BoltStep(cfg: Config, s: State, a: Action)
    requires ValidConfig(cfg) && LocksAgree(s) && BoltSafe(cfg, s) && Enabled(cfg, s, a)
    ensures BoltSafe(cfg, Next(cfg, s, a))
  {
    hide Operating, ReportsSound, EnterTask, HearReply;
    if a.Tick? {
      TickKeepsBolt(cfg, s, a.d);
    } else if a.Transmit? {
      TransmitKeepsBolt(cfg, s, a.id);
    } else if a.Hear? {
      HearKeepsBolt(cfg, s, a.id, a.reply);
    } else {
      SilentLog(cfg, s, a);
      SilentOperating(cfg, s, a);
      SilentKeepsBolt(cfg, s, Next(cfg, s, a), a.id);
    }
  }

  lemma BoltInit(cfg: Config)
    ensures BoltSafe(cfg, Init())
  {
  }

  /**
    In every run, every deadbolt result handed to a caller is a sensor reading of that operation,
    asked for after its acknowledged command had settled, with no other task's command on the wire
    since the operation lock was taken and no command at all since the acknowledgement; it shows
    the wanted state or was checked at or after the deadline.
  */
  lemma {:induction false} BoltInRun(cfg: Config, states: seq<State>, actions: seq<Action>, i: nat)
    requires ValidConfig(cfg) && IsRun(cfg, states, actions) && i < |states|
    ensures BoltSafe(cfg, states[i])
    ensures ReportsSound(cfg, states[i].wire, states[i].log)
  {
    hide Operating, ReportsSound, Enabled, Next;
    if i == 0 {
      BoltInit(cfg);
    } else {
      BoltInRun(cfg, states, actions, i - 1);
      LocksInRun(cfg, states, actions, i - 1);
      BoltStep(cfg, states[i - 1], actions[i - 1]);
    }
  }

  /**
    What a report rests on: event c acknowledged the operation's command; the reported frame
    directly follows this task's own sensor request, sent when the settle time after c was over
    and the pauses between the readings had passed; no command lies in between.
  */
  lemma ReportIsSettled(cfg: Config, states: seq<State>, actions: seq<Action>, n: nat, i: nat) returns (c: nat)
    requires ValidConfig(cfg) && IsRun(cfg, states, actions) && n < |states|
    requires i < |states[n].log| && states[n].log[i].Confirmed?
    ensures var wire, e := states[n].wire, states[n].log[i];
            && e.op.mark <= c < e.rx - 1 && e.rx < |wire| && e.op.readings >= 1
            && Acknowledges(wire[c], e.task, e.open)
            && IsReading(wire[e.rx], e.task, e.unlocked) && wire[e.rx].time == e.time
            && IsQuestion(wire[e.rx - 1], e.task)
            && wire[e.rx - 1].time >= wire[c].time + cfg.settle
            && e.time >= wire[c].time + cfg.settle + Pauses(cfg, e.op.readings - 1)
            && (forall k | c < k <= e.rx :: !IsCommand(wire[k]))
  {
    hide Operating, Numbered, Ordered, Newest;
    BoltInRun(cfg, states, actions, n);
    BlocksInRun(cfg, states, actions, n);
    var wire, e := states[n].wire, states[n].log[i];
    assert ReportSound(cfg, wire, e);
    var before := wire[..e.rx];
    c :| Commanded(cfg, before, e.op.mark, e.task, e.open, Started(cfg, e.op), c);
    assert AnswerTo(wire[e.rx - 1], wire[e.rx]);
    assert before[c] == wire[c] && before[e.rx - 1] == wire[e.rx - 1];
    assert IsQuestion(before[e.rx - 1], e.task);
    forall k | c < k <= e.rx
      ensures !IsCommand(wire[k])
    {
      if k < e.rx { assert before[k] == wire[k]; }
    }
  }

  // ---------------------------------------------------------------- how many readings

  lemma {:induction false} PausesAre(cfg: Config, n: nat)
    ensures Pauses(cfg, n) == n as real * cfg.poll
  {
    if n > 0 {
      PausesAre(cfg, n - 1);
      assert n as real == (n - 1) as real + 1.0;
      assert ((n - 1) as real + 1.0) * cfg.poll == (n - 1) as real * cfg.poll + cfg.poll;
    }
  }

  /** Least integer not below x. */
  function Ceiling(x: real): int {
    -(-x).Floor
  }

  lemma CeilingIs(x: real)
    ensures x <= Ceiling(x) as real < x + 1.0
  {
  }

  lemma QuotientAbove(n: nat, step: real, total: real)
    requires step > 0.0 && total > 0.0 && n as real * step < total
    ensures n < Ceiling(total / step)
  {
  }
}

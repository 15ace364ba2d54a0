/**
  How many sensor readings a deadbolt operation takes, counted on the wire: every operation is
  bounded, whether it is running, was reported, failed or was cancelled.
*/
module EngineReadings {
  import opened Basics
  import opened FrameCodec
  import opened Engine
  import opened EngineLocks
  import opened EngineWire
  import opened EngineBolt

  /** A sensor reading the task received. */
  predicate SensorFrame(e: WireEvent, id: nat) {
    e.Rx? && e.task == id && e.message.code == RQID && Accepted(e.frame, RQID)
  }

  /** Readings of the task from the given wire position on. */
  function ReadingsSince(wire: seq<WireEvent>, mark: nat, id: nat): nat {
    if |wire| <= mark then 0
    else
      var n := |wire| - 1;
      ReadingsSince(wire[..n], mark, id) + (if SensorFrame(wire[n], id) then 1 else 0)
  }

  /** All but the last two of n readings were followed by a pause before the deadline. */
  predicate Few(cfg: Config, n: nat) {
    n >= 2 ==> Pauses(cfg, n - 2) < cfg.confirm
  }

  /** An operation's counter is the number of its readings on the wire. */
  ghost predicate Counted(cfg: Config, wire: seq<WireEvent>, id: nat, t: Task) {
    t.job.OperateBolt? ==>
      && t.bolt.mark <= |wire|
      && Few(cfg, ReadingsSince(wire, t.bolt.mark, id))
      && (!t.phase.Finished? ==>
            ReadingsSince(wire, t.bolt.mark, id) == if t.bolt.reading then t.bolt.readings else 0)
  }

  /** So is the counter of a report. */
  ghost predicate ReportsCounted(wire: seq<WireEvent>, log: seq<LogEvent>) {
    forall i | 0 <= i < |log| && log[i].Confirmed? :: ReportCounted(wire, log[i])
  }

  ghost predicate ReportCounted(wire: seq<WireEvent>, e: LogEvent)
    requires e.Confirmed?
  {
    e.rx < |wire| && ReadingsSince(wire[..e.rx + 1], e.op.mark, e.task) == e.op.readings
  }

  /** Events stem from tasks that were spawned before. */
  ghost predicate KnownTasks(s: State) {
    forall i | 0 <= i < |s.wire| :: s.wire[i].task in s.tasks
  }

  ghost predicate CountSafe(cfg: Config, s: State) {
    && ReportsCounted(s.wire, s.log) && KnownTasks(s)
    && forall id | id in s.tasks :: Counted(cfg, s.wire, id, s.tasks[id])
  }

  // ---------------------------------------------------------------- frame

  lemma ExtendReadings(wire: seq<WireEvent>, e: WireEvent, mark: nat, id: nat)
    requires mark <= |wire|
    ensures ReadingsSince(wire + [e], mark, id) == ReadingsSince(wire, mark, id) + (if SensorFrame(e, id) then 1 else 0)
  {
    assert (wire + [e])[..|wire|] == wire;
  }

  lemma {:induction false} NoReadings(wire: seq<WireEvent>, mark: nat, id: nat)
    requires forall i | 0 <= i < |wire| :: wire[i].task != id
    ensures ReadingsSince(wire, mark, id) == 0
  {
    if |wire| > mark {
      NoReadings(wire[..|wire| - 1], mark, id);
    }
  }

  lemma CountedKept(cfg: Config, wire: seq<WireEvent>, e: WireEvent, id: nat, t: Task)
    requires Counted(cfg, wire, id, t) && !SensorFrame(e, id)
    ensures Counted(cfg, wire + [e], id, t)
  {
    if t.bolt.mark <= |wire| {
      ExtendReadings(wire, e, t.bolt.mark, id);
    }
  }

  lemma ReportsCountedKept(wire: seq<WireEvent>, e: WireEvent, log: seq<LogEvent>)
    requires ReportsCounted(wire, log)
    ensures ReportsCounted(wire + [e], log)
  {
    forall i | 0 <= i < |log| && log[i].Confirmed?
      ensures ReportCounted(wire + [e], log[i])
    {
      assert ReportCounted(wire, log[i]);
      assert (wire + [e])[..log[i].rx + 1] == wire[..log[i].rx + 1];
    }
  }

  /** A step of one task, adding at most one event of its own. */
  lemma StepKeepsCount(cfg: Config, s: State, s': State, id: nat)
    requires CountSafe(cfg, s)
    requires s'.wire == s.wire || exists e :: s'.wire == s.wire + [e] && e.task == id
    requires ReportsCounted(s'.wire, s'.log)
    requires id in s'.tasks && s'.tasks == s.tasks[id := s'.tasks[id]]
    requires Counted(cfg, s'.wire, id, s'.tasks[id])
    ensures CountSafe(cfg, s')
  {
    hide Counted, ReportsCounted;
    forall other | other in s'.tasks
      ensures Counted(cfg, s'.wire, other, s'.tasks[other])
    {
      if other != id && s'.wire != s.wire {
        var e :| s'.wire == s.wire + [e] && e.task == id;
        CountedKept(cfg, s.wire, e, other, s.tasks[other]);
      }
    }
  }

  // ---------------------------------------------------------------- steps

  /** Actions that neither send nor hear report nothing and leave the task's count alone. */
  lemma SilentReports(cfg: Config, s: State, a: Action)
    requires Enabled(cfg, s, a) && !a.Tick? && !a.Transmit? && !a.Hear?
    requires ReportsCounted(s.wire, s.log)
    ensures var s' := Next(cfg, s, a);
            && s'.wire == s.wire && ReportsCounted(s'.wire, s'.log)
            && a.id in s'.tasks && s'.tasks == s.tasks[a.id := s'.tasks[a.id]]
  {
    hide CacheHit, GapUntil, WireUntil, ReportCounted;
  }

  lemma SilentCounted(cfg: Config, s: State, a: Action)
    requires Enabled(cfg, s, a) && !a.Tick? && !a.Transmit? && !a.Hear?
    requires if a.Spawn? then KnownTasks(s)
             else Operating(cfg, s.now, s.wire, a.id, s.tasks[a.id]) && Counted(cfg, s.wire, a.id, s.tasks[a.id])
    ensures var s' := Next(cfg, s, a);
            a.id in s'.tasks && Counted(cfg, s'.wire, a.id, s'.tasks[a.id])
  {
    hide CacheHit, GapUntil, WireUntil, Commanded, Exclusive, Paced, Few;
    NoneIsFew(cfg);
    if a.Spawn? {
      NoReadings(s.wire, 0, a.id);
    } else if a.Enter? {
      assert ReadingsSince(s.wire, |s.wire|, a.id) == 0;
    }
  }

  lemma NoneIsFew(cfg: Config)
    ensures Few(cfg, 0)
  {
  }

  lemma TransmitKeepsCount(cfg: Config, s: State, id: nat)
    requires CountSafe(cfg, s) && Enabled(cfg, s, Transmit(id))
    ensures CountSafe(cfg, Next(cfg, s, Transmit(id)))
  {
    hide ReportsCounted;
    var s' := Next(cfg, s, Transmit(id));
    var e := s'.wire[|s.wire|];
    assert Counted(cfg, s.wire, id, s.tasks[id]);
    ReportsCountedKept(s.wire, e, s.log);
    CountedKept(cfg, s.wire, e, id, s.tasks[id]);
    StepKeepsCount(cfg, s, s', id);
  }

  /** One more reading is few enough as long as the deadline has not been seen to pass. */
  lemma OneMoreIsFew(cfg: Config, op: BoltOp, settled: real)
    requires Paced(cfg, op, settled)
    ensures Few(cfg, op.readings + 1)
  {
  }

  /** An accepted frame of an operation: counted, and reported with its count. */
  lemma DeliverCounted(cfg: Config, s: State, id: nat, frame: FrameView)
    requires id in s.tasks && s.tasks[id].phase.Listening? && s.tasks[id].job.OperateBolt?
    requires Operating(cfg, s.now, s.wire, id, s.tasks[id]) && Counted(cfg, s.wire, id, s.tasks[id])
    requires ReportsCounted(s.wire, s.log) && Accepted(frame, CodeOf(s.tasks[id]))
    ensures var s' := Deliver(cfg, WithRx(s, id, frame), id, frame);
            && id in s'.tasks && Counted(cfg, s'.wire, id, s'.tasks[id])
            && ReportsCounted(s'.wire, s'.log)
  {
    hide Commanded, Exclusive, Paced, ReportCounted, Few;
    var t, heard := s.tasks[id], WithRx(s, id, frame);
    var w, s' := heard.wire[|s.wire|], Deliver(cfg, heard, id, frame);
    ExtendReadings(s.wire, w, t.bolt.mark, id);
    ReportsCountedKept(s.wire, w, s.log);
    assert s'.wire == heard.wire && SensorFrame(w, id) == t.bolt.reading;
    if t.bolt.reading {
      OneMoreIsFew(cfg, t.bolt, s.now);
      if s'.log != s.log {
        NewReportCounted(heard.wire, s'.log[|s.log|], |s.wire|);
      }
    }
  }

  lemma NewReportCounted(wire: seq<WireEvent>, e: LogEvent, n: nat)
    requires e.Confirmed? && |wire| == n + 1 && e.rx == n
    requires ReadingsSince(wire, e.op.mark, e.task) == e.op.readings
    ensures ReportCounted(wire, e)
  {
    assert wire[..n + 1] == wire;
  }

  /** Frames of other commands, and frames that are discarded, are no sensor readings. */
  lemma OtherDelivery(cfg: Config, s: State, id: nat, frame: FrameView)
    requires id in s.tasks && |s.wire| > 0 && !s.tasks[id].job.OperateBolt?
    requires ReportsCounted(s.wire, s.log)
    ensures var s' := Deliver(cfg, s, id, frame);
            id in s'.tasks && s'.tasks[id].job == s.tasks[id].job && ReportsCounted(s'.wire, s'.log)
  {
    hide ReportCounted, SanitizeNow;
  }

  lemma HearKeepsCount(cfg: Config, s: State, id: nat, reply: Reply)
    requires BoltSafe(cfg, s) && CountSafe(cfg, s) && Enabled(cfg, s, Hear(id, reply))
    ensures CountSafe(cfg, HearReply(cfg, s, id, reply))
  {
    hide Accepted, Deliver, AfterFailure, ReportsCounted, Few;
    var s', t := HearReply(cfg, s, id, reply), s.tasks[id];
    assert Operating(cfg, s.now, s.wire, id, t) && Counted(cfg, s.wire, id, t);
    if reply.Arrived? {
      var heard := WithRx(s, id, reply.frame);
      var w := heard.wire[|s.wire|];
      ReportsCountedKept(s.wire, w, s.log);
      if Accepted(reply.frame, CodeOf(t)) {
        DeliverQuietly(cfg, heard, id, reply.frame);
        if t.job.OperateBolt? {
          DeliverCounted(cfg, s, id, reply.frame);
        } else {
          OtherDelivery(cfg, heard, id, reply.frame);
        }
      } else {
        FailureEffect(cfg, heard, id);
        FailureLog(cfg, heard, id);
        CountedKept(cfg, s.wire, w, id, t);
      }
      StepKeepsCount(cfg, s, s', id);
    } else {
      FailureEffect(cfg, s, id);
      FailureLog(cfg, s, id);
      StepKeepsCount(cfg, s, s', id);
    }
  }

  lemma CountStep(cfg: Config, s: State, a: Action)
    requires BoltSafe(cfg, s) && CountSafe(cfg, s) && Enabled(cfg, s, a)
    ensures CountSafe(cfg, Next(cfg, s, a))
  {
    hide Operating, Counted, ReportsCounted, ReportsSound, EnterTask, HearReply;
    if a.Tick? {
      assert Next(cfg, s, a).tasks == s.tasks;
    } else if a.Transmit? {
      TransmitKeepsCount(cfg, s, a.id);
    } else if a.Hear? {
      HearKeepsCount(cfg, s, a.id, a.reply);
    } else {
      SilentReports(cfg, s, a);
      SilentCounted(cfg, s, a);
      StepKeepsCount(cfg, s, Next(cfg, s, a), a.id);
    }
  }

  /** In every run the counters of operations and reports are the readings on the wire. */
  lemma {:induction false} CountInRun(cfg: Config, states: seq<State>, actions: seq<Action>, i: nat)
    requires ValidConfig(cfg) && IsRun(cfg, states, actions) && i < |states|
    ensures CountSafe(cfg, states[i])
  {
    hide Counted, ReportsCounted, BoltSafe, Enabled, Next;
    if i == 0 {
      CountInit(cfg);
    } else {
      CountInRun(cfg, states, actions, i - 1);
      BoltInRun(cfg, states, actions, i - 1);
      CountStep(cfg, states[i - 1], actions[i - 1]);
    }
  }

  lemma CountInit(cfg: Config)
    ensures CountSafe(cfg, Init())
  {
  }

  // ---------------------------------------------------------------- the bound

  lemma FewIsBounded(cfg: Config, n: nat)
    requires ValidConfig(cfg) && cfg.poll > 0.0 && Few(cfg, n)
    ensures n <= Ceiling(cfg.confirm / cfg.poll) + 1
  {
    var k := if n >= 2 then n - 2 else 0;
    PausesAre(cfg, k);
    QuotientAbove(k, cfg.poll, cfg.confirm);
  }

  /**
    In every state of every run, a deadbolt operation has received at most ceil(confirm / poll) + 1
    sensor readings since it took its lock, however it goes on or ended.
  */
  lemma ReadingsBounded(cfg: Config, states: seq<State>, actions: seq<Action>, n: nat, id: nat)
    requires ValidConfig(cfg) && cfg.poll > 0.0 && IsRun(cfg, states, actions) && n < |states|
    requires id in states[n].tasks && states[n].tasks[id].job.OperateBolt?
    ensures ReadingsSince(states[n].wire, states[n].tasks[id].bolt.mark, id) <= Ceiling(cfg.confirm / cfg.poll) + 1
  {
    hide ReadingsSince, Few, ReportsCounted;
    CountInRun(cfg, states, actions, n);
    assert Counted(cfg, states[n].wire, id, states[n].tasks[id]);
    FewIsBounded(cfg, ReadingsSince(states[n].wire, states[n].tasks[id].bolt.mark, id));
  }

  /** The count in a report is the number of readings on the wire up to the reported one. */
  lemma ReportedReadings(cfg: Config, states: seq<State>, actions: seq<Action>, n: nat, i: nat)
    requires ValidConfig(cfg) && IsRun(cfg, states, actions) && n < |states|
    requires i < |states[n].log| && states[n].log[i].Confirmed?
    ensures var e := states[n].log[i];
            && e.op.mark <= e.rx < |states[n].wire|
            && ReadingsSince(states[n].wire[..e.rx + 1], e.op.mark, e.task) == e.op.readings >= 1
  {
    hide ReadingsSince, Counted, Operating, Commanded, Exclusive;
    BoltInRun(cfg, states, actions, n);
    CountInRun(cfg, states, actions, n);
    assert ReportCounted(states[n].wire, states[n].log[i]);
    assert ReportSound(cfg, states[n].wire, states[n].log[i]);
  }
}

/**
  A deadbolt operation stops exactly at its first decisive reading: while it goes on, every reading
  so far was early and showed the other state; a decisive one has been reported.
*/
module EngineConfirm {
  import opened Basics
  import opened FrameCodec
  import opened Engine
  import opened EngineLocks
  import opened EngineWire
  import opened EngineBolt
  import opened EngineReadings

  /** The reading showed the other state before the deadline. */
  predicate Inconclusive(e: WireEvent, open: bool, deadline: real) {
    e.Rx? && e.frame.body.BoltState? && e.frame.body.unlocked != open && e.time < deadline
  }

  predicate Reported(log: seq<LogEvent>, id: nat, rx: nat) {
    exists k | 0 <= k < |log| :: log[k].Confirmed? && log[k].task == id && log[k].rx == rx
  }

  /** What reading i means for its operation. */
  ghost predicate Settles(log: seq<LogEvent>, wire: seq<WireEvent>, id: nat, t: Task, i: nat)
    requires i < |wire| && t.job.OperateBolt?
  {
    || (t.bolt.reading && Inconclusive(wire[i], t.job.open, t.bolt.deadline))
    || (t.phase.Finished? && t.bolt.reading && wire[i].Rx? && (wire[i].frame.body.BoltState? ==> Reported(log, id, i)))
  }

  ghost predicate Decided(log: seq<LogEvent>, wire: seq<WireEvent>, id: nat, t: Task) {
    t.job.OperateBolt? ==>
      forall i | t.bolt.mark <= i < |wire| && SensorFrame(wire[i], id) :: Settles(log, wire, id, t, i)
  }

  ghost predicate AllDecided(s: State) {
    forall id | id in s.tasks :: Decided(s.log, s.wire, id, s.tasks[id])
  }

  // ---------------------------------------------------------------- frame

  /** Logs and traces that grow without a reading of the task keep its decisions. */
  lemma DecidedKept(log: seq<LogEvent>, entries: seq<LogEvent>, wire: seq<WireEvent>, more: seq<WireEvent>, id: nat, t: Task)
    requires Decided(log, wire, id, t)
    requires forall i | 0 <= i < |more| :: !SensorFrame(more[i], id)
    ensures Decided(log + entries, wire + more, id, t)
  {
    if t.job.OperateBolt? {
      forall i | t.bolt.mark <= i < |wire + more| && SensorFrame((wire + more)[i], id)
        ensures Settles(log + entries, wire + more, id, t, i)
      {
        assert i < |wire| && Settles(log, wire, id, t, i);
        ReportedKept(log, entries, id, i);
      }
    }
  }

  lemma ReportedKept(log: seq<LogEvent>, entries: seq<LogEvent>, id: nat, rx: nat)
    ensures Reported(log, id, rx) ==> Reported(log + entries, id, rx)
  {
    if Reported(log, id, rx) {
      var k :| 0 <= k < |log| && log[k].Confirmed? && log[k].task == id && log[k].rx == rx;
      assert (log + entries)[k] == log[k];
    }
  }

  /** A step of one task, with the event and the log entries it adds. */
  lemma StepKeepsDecided(s: State, s': State, id: nat, entries: seq<LogEvent>, more: seq<WireEvent>)
    requires AllDecided(s) && s'.log == s.log + entries && s'.wire == s.wire + more
    requires forall i | 0 <= i < |more| :: more[i].task == id
    requires id in s'.tasks && s'.tasks == s.tasks[id := s'.tasks[id]]
    requires Decided(s'.log, s'.wire, id, s'.tasks[id])
    ensures AllDecided(s')
  {
    hide Decided;
    forall other | other in s'.tasks
      ensures Decided(s'.log, s'.wire, other, s'.tasks[other])
    {
      if other != id {
        DecidedKept(s.log, entries, s.wire, more, other, s.tasks[other]);
      }
    }
  }

  // ---------------------------------------------------------------- steps

  /** What an action that neither sends nor hears adds to the log: at most a cache hit. */
  lemma SilentEntries(cfg: Config, s: State, a: Action) returns (entries: seq<LogEvent>)
    requires Enabled(cfg, s, a) && !a.Tick? && !a.Transmit? && !a.Hear?
    ensures var s' := Next(cfg, s, a);
            && s'.wire == s.wire && s'.log == s.log + entries
            && a.id in s'.tasks && s'.tasks == s.tasks[a.id := s'.tasks[a.id]]
  {
    hide CacheHit, GapUntil, WireUntil;
    var s' := Next(cfg, s, a);
    entries := s'.log[|s.log|..];
  }

  lemma SilentDecided(cfg: Config, s: State, a: Action)
    requires Enabled(cfg, s, a) && !a.Tick? && !a.Transmit? && !a.Hear?
    requires if a.Spawn? then KnownTasks(s)
             else Operating(cfg, s.now, s.wire, a.id, s.tasks[a.id]) && Decided(s.log, s.wire, a.id, s.tasks[a.id])
    ensures var s' := Next(cfg, s, a);
            a.id in s'.tasks && Decided(s.log, s.wire, a.id, s'.tasks[a.id])
  {
    hide CacheHit, GapUntil, WireUntil, Commanded, Exclusive, Paced, AskedSettled, Reported, Inconclusive;
  }

  lemma TransmitDecided(cfg: Config, s: State, id: nat)
    requires AllDecided(s) && Enabled(cfg, s, Transmit(id))
    ensures AllDecided(Next(cfg, s, Transmit(id)))
  {
    var s', t := Next(cfg, s, Transmit(id)), s.tasks[id];
    var more := [s'.wire[|s.wire|]];
    assert Decided(s.log, s.wire, id, t);
    DecidedKept(s.log, [], s.wire, more, id, t);
    assert s.log + [] == s.log;
    StepKeepsDecided(s, s', id, [], more);
  }

  /** A frame that does not answer the request of an operation is no reading of it. */
  lemma DiscardedDecided(cfg: Config, s: State, s': State, id: nat, frame: FrameView)
    requires AllDecided(s) && id in s.tasks && !Accepted(frame, CodeOf(s.tasks[id]))
    requires s'.log == s.log && s'.wire == WithRx(s, id, frame).wire
    requires id in s'.tasks && s'.tasks == s.tasks[id := s'.tasks[id]]
    requires s'.tasks[id] == s.tasks[id].(phase := s'.tasks[id].phase)
    requires !s.tasks[id].phase.Finished?
    ensures AllDecided(s')
  {
    hide Accepted;
    var t := s.tasks[id];
    var more := [s'.wire[|s.wire|]];
    assert Decided(s.log, s.wire, id, t);
    DecidedKept(s.log, [], s.wire, more, id, t);
    assert s.log + [] == s.log;
    StepKeepsDecided(s, s', id, [], more);
  }

  /** An accepted answer of an operation: inconclusive and it goes on, or it ends there. */
  lemma AnswerDecided(cfg: Config, s: State, id: nat, frame: FrameView)
    requires id in s.tasks && s.tasks[id].phase.Listening? && s.tasks[id].job.OperateBolt?
    requires Decided(s.log, s.wire, id, s.tasks[id]) && Accepted(frame, CodeOf(s.tasks[id]))
    ensures var s' := Deliver(cfg, WithRx(s, id, frame), id, frame);
            id in s'.tasks && Decided(s'.log, s'.wire, id, s'.tasks[id])
  {
    var t, heard := s.tasks[id], WithRx(s, id, frame);
    var s' := Deliver(cfg, heard, id, frame);
    var n, w := |s.wire|, heard.wire[|s.wire|];
    var entries := s'.log[|s.log|..];
    assert s'.log == s.log + entries;
    if SensorFrame(w, id) && entries != [] {
      assert s'.log[|s.log|].Confirmed? && s'.log[|s.log|].rx == n;
      assert Reported(s'.log, id, n);
    }
    forall i | t.bolt.mark <= i < |s'.wire| && SensorFrame(s'.wire[i], id)
      ensures Settles(s'.log, s'.wire, id, s'.tasks[id], i)
    {
      if i < n {
        assert Settles(s.log, s.wire, id, t, i);
      }
    }
  }

  lemma OtherEntries(cfg: Config, s: State, id: nat, frame: FrameView) returns (entries: seq<LogEvent>)
    requires id in s.tasks && |s.wire| > 0
    ensures var s' := Deliver(cfg, s, id, frame); s'.log == s.log + entries
  {
    hide SanitizeNow;
    entries := Deliver(cfg, s, id, frame).log[|s.log|..];
  }

  lemma HearDecided(cfg: Config, s: State, id: nat, reply: Reply)
    requires AllDecided(s) && Enabled(cfg, s, Hear(id, reply))
    ensures AllDecided(HearReply(cfg, s, id, reply))
  {
    hide Accepted, Deliver, AfterFailure, Decided;
    var s', t := HearReply(cfg, s, id, reply), s.tasks[id];
    assert Decided(s.log, s.wire, id, t);
    if reply.Arrived? {
      var heard := WithRx(s, id, reply.frame);
      var more := [heard.wire[|s.wire|]];
      if Accepted(reply.frame, CodeOf(t)) {
        DeliverQuietly(cfg, heard, id, reply.frame);
        var entries := OtherEntries(cfg, heard, id, reply.frame);
        if t.job.OperateBolt? {
          AnswerDecided(cfg, s, id, reply.frame);
        } else {
          OtherJobDecided(s'.log, s'.wire, id, s'.tasks[id]);
        }
        StepKeepsDecided(s, s', id, entries, more);
      } else {
        FailureEffect(cfg, heard, id);
        FailureLog(cfg, heard, id);
        DiscardedDecided(cfg, s, s', id, reply.frame);
      }
    } else {
      FailureEffect(cfg, s, id);
      FailureLog(cfg, s, id);
      PhaseDecided(s.log, s.wire, id, t, s'.tasks[id]);
      assert s.log + [] == s.log && s.wire + [] == s.wire;
      StepKeepsDecided(s, s', id, [], []);
    }
  }

  lemma OtherJobDecided(log: seq<LogEvent>, wire: seq<WireEvent>, id: nat, t: Task)
    requires !t.job.OperateBolt?
    ensures Decided(log, wire, id, t)
  {
  }

  lemma PhaseDecided(log: seq<LogEvent>, wire: seq<WireEvent>, id: nat, t: Task, t': Task)
    requires Decided(log, wire, id, t) && t' == t.(phase := t'.phase) && !t.phase.Finished?
    ensures Decided(log, wire, id, t')
  {
    if t.job.OperateBolt? {
      forall i | t.bolt.mark <= i < |wire| && SensorFrame(wire[i], id)
        ensures Settles(log, wire, id, t', i)
      {
        assert Settles(log, wire, id, t, i);
      }
    }
  }

  lemma DecidedStep(cfg: Config, s: State, a: Action)
    requires BoltSafe(cfg, s) && CountSafe(cfg, s) && AllDecided(s) && Enabled(cfg, s, a)
    ensures AllDecided(Next(cfg, s, a))
  {
    hide Operating, Counted, Decided, ReportsCounted, ReportsSound, EnterTask, HearReply, KnownTasks;
    if a.Tick? {
      assert Next(cfg, s, a).tasks == s.tasks;
    } else if a.Transmit? {
      TransmitDecided(cfg, s, a.id);
    } else if a.Hear? {
      HearDecided(cfg, s, a.id, a.reply);
    } else {
      var entries := SilentEntries(cfg, s, a);
      SilentDecided(cfg, s, a);
      var s' := Next(cfg, s, a);
      DecidedKept(s.log, entries, s.wire, [], a.id, s'.tasks[a.id]);
      assert s.wire + [] == s.wire;
      StepKeepsDecided(s, s', a.id, entries, []);
    }
  }

  lemma {:induction false} DecidedInRun(cfg: Config, states: seq<State>, actions: seq<Action>, i: nat)
    requires ValidConfig(cfg) && IsRun(cfg, states, actions) && i < |states|
    ensures AllDecided(states[i])
  {
    hide Decided, CountSafe, BoltSafe, Enabled, Next;
    if i > 0 {
      DecidedInRun(cfg, states, actions, i - 1);
      BoltInRun(cfg, states, actions, i - 1);
      CountInRun(cfg, states, actions, i - 1);
      DecidedStep(cfg, states[i - 1], actions[i - 1]);
    }
  }

  /**
    In every run, for every sensor reading a deadbolt operation has received since it took its lock:
    if it showed the wanted state or came at or after the deadline, the operation is finished and
    this very reading was reported; as long as it is not finished, all were early and showed the other.
  */
  lemma DecisiveIsReported(cfg: Config, states: seq<State>, actions: seq<Action>, n: nat, id: nat, i: nat)
    requires ValidConfig(cfg) && IsRun(cfg, states, actions) && n < |states|
    requires id in states[n].tasks && states[n].tasks[id].job.OperateBolt?
    requires states[n].tasks[id].bolt.mark <= i < |states[n].wire| && SensorFrame(states[n].wire[i], id)
    ensures var s, t, e := states[n], states[n].tasks[id], states[n].wire[i];
            && (e.frame.body.BoltState? && (e.frame.body.unlocked == t.job.open || e.time >= t.bolt.deadline) ==>
                  t.phase.Finished? && Reported(s.log, id, i))
            && (!t.phase.Finished? ==>
                  e.frame.body.BoltState? && e.frame.body.unlocked != t.job.open && e.time < t.bolt.deadline)
  {
    hide Reported;
    DecidedInRun(cfg, states, actions, n);
    assert Decided(states[n].log, states[n].wire, id, states[n].tasks[id]);
    assert Settles(states[n].log, states[n].wire, id, states[n].tasks[id], i);
  }

  /**
    The course of an operation: after the acknowledgement it settles for exactly the settle time, then
    starts its deadline and reads; after an inconclusive reading it pauses for exactly the poll time.
  */
  lemma OperationCourse(cfg: Config, s: State, id: nat, frame: FrameView)
    requires id in s.tasks && s.tasks[id].phase.Listening? && s.tasks[id].job.OperateBolt?
    requires Accepted(frame, CodeOf(s.tasks[id])) && frame.body.BoltState?
    ensures var t, s' := s.tasks[id], Next(cfg, s, Hear(id, Arrived(frame)));
            && id in s'.tasks
            && (!t.bolt.reading ==> s'.tasks[id].phase == Settling(s.now + cfg.settle) && s'.log == s.log)
            && (t.bolt.reading && frame.body.unlocked != t.job.open && s.now < t.bolt.deadline ==>
                  s'.tasks[id].phase == Pausing(s.now + cfg.poll) && s'.log == s.log)
            && (t.bolt.reading && !(frame.body.unlocked != t.job.open && s.now < t.bolt.deadline) ==>
                  s'.tasks[id].phase.Finished? && |s'.log| == |s.log| + 1
                  && s'.log[|s.log|].Confirmed? && s'.log[|s.log|].unlocked == frame.body.unlocked)
  {
    hide Accepted;
  }

  lemma DeadlineStarts(cfg: Config, s: State, id: nat)
    requires id in s.tasks && s.tasks[id].job.OperateBolt?
    requires s.tasks[id].phase.Settling? && s.now >= s.tasks[id].phase.until
    ensures var s' := Next(cfg, s, SettleOver(id));
            && Enabled(cfg, s, SettleOver(id))
            && s'.tasks[id].phase.Queued? && CodeOf(s'.tasks[id]) == RQID
            && s'.tasks[id].bolt.deadline == s.now + cfg.confirm && s'.tasks[id].bolt.readings == 0
  {
  }
}

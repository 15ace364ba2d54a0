/**
  Who holds what: in every reachable state each lock is held by exactly the task whose phase
  says so, and the fixed order (gate or operation lock first, serial line second) leaves no
  deadlock.
*/
module EngineLocks {
  import opened Basics
  import opened FrameCodec
  import opened Engine

  /** The lock fields agree with the phases of all tasks. */
  ghost predicate LocksAgree(s: State) {
    && (forall id | id in s.tasks :: LocksAgreeAt(s, id))
    && (s.serialOwner.Some? ==> s.serialOwner.value in s.tasks)
    && (s.gateOwner.Some? ==> s.gateOwner.value in s.tasks)
    && (s.boltOwner.Some? ==> s.boltOwner.value in s.tasks)
  }

  ghost predicate LocksAgreeAt(s: State, id: nat)
    requires id in s.tasks
  {
    var t := s.tasks[id];
    && (InTransaction(t) <==> s.serialOwner == Some(id))
    && (HoldsGate(t) <==> s.gateOwner == Some(id))
    && (HoldsBolt(t) <==> s.boltOwner == Some(id))
    && JobOk(t.job)
    && (t.phase.Settling? || t.phase.Pausing? ==> t.job.OperateBolt?)
    && (InTransaction(t) ==> t.attempt >= 1)
  }

  lemma LocksInit()
    ensures LocksAgree(Init())
  {
  }

  /** Unchanged, taken by the task while free, or dropped by it. */
  predicate Transfers(before: Option<nat>, after: Option<nat>, id: nat) {
    || after == before
    || (before == None && after == Some(id))
    || (before == Some(id) && after == None)
  }

  /** Only the acting task's record changes, and the locks it takes or drops. */
  ghost predicate OwnEffect(s: State, s': State, id: nat) {
    && id in s'.tasks
    && s'.tasks == s.tasks[id := s'.tasks[id]]
    && Transfers(s.serialOwner, s'.serialOwner, id)
    && Transfers(s.gateOwner, s'.gateOwner, id)
    && Transfers(s.boltOwner, s'.boltOwner, id)
    && LocksAgreeAt(s', id)
  }

  lemma OwnEffectKeepsLocks(s: State, s': State, id: nat)
    requires LocksAgree(s) && OwnEffect(s, s', id)
    ensures LocksAgree(s')
  {
  }

  lemma SpawnEffect(cfg: Config, s: State, id: nat, job: Job)
    requires LocksAgree(s) && Enabled(cfg, s, Spawn(id, job))
    ensures OwnEffect(s, Next(cfg, s, Spawn(id, job)), id)
  {
  }

  lemma EnterEffect(cfg: Config, s: State, id: nat)
    requires Enabled(cfg, s, Enter(id)) && LocksAgreeAt(s, id)
    ensures OwnEffect(s, Next(cfg, s, Enter(id)), id)
  {
    hide CacheHit;
  }

  lemma DeliverEffect(cfg: Config, s: State, id: nat, frame: FrameView)
    requires id in s.tasks && |s.wire| > 0 && LocksAgreeAt(s, id) && s.tasks[id].phase.Listening?
    ensures OwnEffect(s, Deliver(cfg, s, id, frame), id)
  {
    hide Sample, Forget;
  }

  lemma HearEffect(cfg: Config, s: State, id: nat, reply: Reply)
    requires Enabled(cfg, s, Hear(id, reply)) && LocksAgreeAt(s, id)
    ensures OwnEffect(s, Next(cfg, s, Hear(id, reply)), id)
  {
    hide Backoff, Accepted, Deliver;
    if reply.Arrived? {
      DeliverEffect(cfg, WithRx(s, id, reply.frame), id, reply.frame);
    }
  }

  lemma FinishEffect(s: State, id: nat)
    requires id in s.tasks && LocksAgreeAt(s, id)
    ensures OwnEffect(s, Finish(s, id), id)
  {
  }

  lemma ResumeEffect(cfg: Config, s: State, a: Action)
    requires Enabled(cfg, s, a) && !a.Tick? && !a.Spawn? && !a.Enter? && !a.Hear?
    requires LocksAgreeAt(s, a.id)
    ensures OwnEffect(s, Next(cfg, s, a), a.id)
  {
    hide GapUntil, WireUntil, EnterTask, HearReply, Finish;
    FinishEffect(s, a.id);
  }

  lemma LocksStep(cfg: Config, s: State, a: Action)
    requires LocksAgree(s) && Enabled(cfg, s, a)
    ensures LocksAgree(Next(cfg, s, a))
  {
    hide *;
    if a.Tick? {
      TickKeepsLocks(cfg, s, a.d);
    } else {
      if a.Spawn? {
        SpawnEffect(cfg, s, a.id, a.job);
      } else {
        ActorAgrees(cfg, s, a);
        if a.Enter? {
          EnterEffect(cfg, s, a.id);
        } else if a.Hear? {
          HearEffect(cfg, s, a.id, a.reply);
        } else {
          ResumeEffect(cfg, s, a);
        }
      }
      OwnEffectKeepsLocks(s, Next(cfg, s, a), a.id);
    }
  }

  lemma ActorAgrees(cfg: Config, s: State, a: Action)
    requires LocksAgree(s) && Enabled(cfg, s, a) && !a.Tick? && !a.Spawn?
    ensures a.id in s.tasks && LocksAgreeAt(s, a.id)
  {
  }

  lemma TickKeepsLocks(cfg: Config, s: State, d: real)
    requires LocksAgree(s) && Enabled(cfg, s, Tick(d))
    ensures LocksAgree(Next(cfg, s, Tick(d)))
  {
  }

  // ---------------------------------------------------------------- no deadlock

  /** The task waits for a lock another task holds. */
  predicate Blocked(s: State, t: Task) {
    || (t.phase.Queued? && s.serialOwner.Some?)
    || (t.phase.Idle? && t.job.ReadLoadcells? && s.gateOwner.Some?)
    || (t.phase.Idle? && t.job.OperateBolt? && s.boltOwner.Some?)
  }

  /** Time at which the task's timer, if it has one, has run out. */
  function WakeTime(s: State, t: Task): real {
    match t.phase
    case GapWait(u) => Max(s.now, u)
    case WireWait(u) => Max(s.now, u)
    case BackingOff(u) => Max(s.now, u)
    case Settling(u) => Max(s.now, u)
    case Pausing(u) => Max(s.now, u)
    case _ => s.now
  }

  /** The action that resumes a task which is not blocked, whatever the device does. */
  function Resume(id: nat, t: Task): Action
    requires !t.phase.Finished?
  {
    match t.phase
    case Idle => Enter(id)
    case Queued => TakeSerial(id)
    case Opening => Opened(id, true)
    case GapWait(_) => GapOver(id)
    case WireWait(_) => WireOver(id)
    case Draining => Transmit(id)
    case Listening => Hear(id, Silence)
    case BackingOff(_) => BackoffOver(id)
    case Closing => Closed(id)
    case Settling(_) => SettleOver(id)
    case Pausing(_) => PauseOver(id)
  }

  lemma UnblockedCanStep(cfg: Config, s: State, id: nat)
    requires id in s.tasks && !s.tasks[id].phase.Finished? && !Blocked(s, s.tasks[id])
    ensures var wait := Tick(WakeTime(s, s.tasks[id]) - s.now);
            Enabled(cfg, s, wait) && Enabled(cfg, Next(cfg, s, wait), Resume(id, s.tasks[id]))
  {
  }

  /**
    Deadlock freedom: while any task is unfinished, some unfinished task is not blocked, and
    it resumes after waiting at most for its own timer.  The holder of the serial line is
    never blocked, and a blocked holder of an outer lock waits for the serial line only.
  */
  lemma SomeTaskCanStep(cfg: Config, s: State, waiting: nat) returns (id: nat)
    requires LocksAgree(s) && waiting in s.tasks && !s.tasks[waiting].phase.Finished?
    ensures id in s.tasks && !s.tasks[id].phase.Finished? && !Blocked(s, s.tasks[id])
    ensures var wait := Tick(WakeTime(s, s.tasks[id]) - s.now);
            Enabled(cfg, s, wait) && Enabled(cfg, Next(cfg, s, wait), Resume(id, s.tasks[id]))
  {
    id := waiting;
    if Blocked(s, s.tasks[id]) && s.tasks[id].phase.Idle? {
      id := if s.tasks[id].job.ReadLoadcells? then s.gateOwner.value else s.boltOwner.value;
      assert LocksAgreeAt(s, id);
    }
    if Blocked(s, s.tasks[id]) {
      id := s.serialOwner.value;
      assert LocksAgreeAt(s, id);
    }
    UnblockedCanStep(cfg, s, id);
  }

  lemma {:induction false} LocksInRun(cfg: Config, states: seq<State>, actions: seq<Action>, i: nat)
    requires IsRun(cfg, states, actions) && i < |states|
    ensures LocksAgree(states[i])
  {
    if i == 0 {
      LocksInit();
    } else {
      LocksInRun(cfg, states, actions, i - 1);
      LocksStep(cfg, states[i - 1], actions[i - 1]);
    }
  }

  /**
    Mutual exclusion in every run, phase by phase: one task at a time is between taking the line and
    giving it back, one loadcell request is past the gate, one deadbolt operation is under way.
  */
  lemma OneAtATime(cfg: Config, states: seq<State>, actions: seq<Action>, i: nat, a: nat, b: nat)
    requires IsRun(cfg, states, actions) && i < |states|
    requires a in states[i].tasks && b in states[i].tasks && a != b
    ensures var p, q := states[i].tasks[a].phase, states[i].tasks[b].phase;
            && (p.Idle? || p.Queued? || p.Settling? || p.Pausing? || p.Finished?
                || q.Idle? || q.Queued? || q.Settling? || q.Pausing? || q.Finished?)
            && (states[i].tasks[a].job.ReadLoadcells? && states[i].tasks[b].job.ReadLoadcells? ==>
                  p.Idle? || p.Finished? || q.Idle? || q.Finished?)
            && (states[i].tasks[a].job.OperateBolt? && states[i].tasks[b].job.OperateBolt? ==>
                  p.Idle? || p.Finished? || q.Idle? || q.Finished?)
  {
    LocksInRun(cfg, states, actions, i);
    assert LocksAgreeAt(states[i], a) && LocksAgreeAt(states[i], b);
  }
}

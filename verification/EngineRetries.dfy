/**
  Failed attempts are repeated, exactly up to the limit: the attempt number is the number of
  transmissions on the wire, and what follows a failure depends on it alone.
*/
module EngineRetries {
  import opened Basics
  import opened FrameCodec
  import opened Engine
  import opened EngineLocks
  import opened EngineWire
  import opened EngineBlocks

  /** The attempt number counts the transmissions of the transaction. */
  ghost predicate Counts(s: State, t: Task) {
    InTransaction(t) && !t.phase.Closing? ==>
      Transmissions(s.wire, t.txn) + (if BeforeTx(t.phase) then 1 else 0) == t.attempt
  }

  ghost predicate AllCount(s: State) {
    forall id | id in s.tasks :: Counts(s, s.tasks[id])
  }

  lemma ExtendTransmissions(wire: seq<WireEvent>, e: WireEvent, txn: nat)
    ensures Transmissions(wire + [e], txn) == Transmissions(wire, txn) + (if e.Tx? && e.txn == txn then 1 else 0)
  {
    assert (wire + [e])[..|wire|] == wire;
  }

  lemma {:induction false} NoneSent(wire: seq<WireEvent>, txn: nat)
    requires forall i | 0 <= i < |wire| :: wire[i].txn != txn
    ensures Transmissions(wire, txn) == 0
  {
    if |wire| > 0 {
      NoneSent(wire[..|wire| - 1], txn);
    }
  }

  /** A step of the task on the line: whoever else there is stays outside. */
  lemma OwnerKeepsCount(s: State, s': State, id: nat)
    requires LocksAgree(s) && id in s.tasks && InTransaction(s.tasks[id])
    requires id in s'.tasks && s'.tasks == s.tasks[id := s'.tasks[id]] && Counts(s', s'.tasks[id])
    ensures AllCount(s')
  {
    hide Transmissions;
    forall other | other in s'.tasks
      ensures Counts(s', s'.tasks[other])
    {
      if other != id { OthersOutside(s, id, other); }
    }
  }

  /** A step that leaves the wire alone. */
  lemma SilentKeepsCount(s: State, s': State, id: nat)
    requires AllCount(s) && s'.wire == s.wire
    requires id in s'.tasks && s'.tasks == s.tasks[id := s'.tasks[id]] && Counts(s', s'.tasks[id])
    ensures AllCount(s')
  {
    hide Transmissions;
    forall other | other in s'.tasks
      ensures Counts(s', s'.tasks[other])
    {
      if other != id { assert Counts(s, s.tasks[other]); }
    }
  }

  lemma TakeCounts(cfg: Config, s: State, id: nat)
    requires BlocksSafe(cfg, s) && AllCount(s) && Enabled(cfg, s, TakeSerial(id))
    ensures AllCount(Next(cfg, s, TakeSerial(id)))
  {
    hide Transmissions;
    var s' := Next(cfg, s, TakeSerial(id));
    forall i | 0 <= i < |s.wire|
      ensures s.wire[i].txn != s.txns + 1
    {
      assert Numbered(cfg, s.txns, s.wire[i]);
    }
    NoneSent(s.wire, s.txns + 1);
    SilentKeepsCount(s, s', id);
  }

  lemma TransmitCounts(cfg: Config, s: State, id: nat)
    requires LocksAgree(s) && AllCount(s) && Enabled(cfg, s, Transmit(id))
    ensures AllCount(Next(cfg, s, Transmit(id)))
  {
    hide Transmissions;
    var s' := Next(cfg, s, Transmit(id));
    assert Counts(s, s.tasks[id]);
    ExtendTransmissions(s.wire, s'.wire[|s.wire|], s.tasks[id].txn);
    OwnerKeepsCount(s, s', id);
  }

  lemma HearCounts(cfg: Config, s: State, id: nat, reply: Reply)
    requires LocksAgree(s) && AllCount(s) && Enabled(cfg, s, Hear(id, reply))
    ensures AllCount(HearReply(cfg, s, id, reply))
  {
    hide Accepted, Deliver, AfterFailure, Transmissions, AllCount;
    var s', t := HearReply(cfg, s, id, reply), s.tasks[id];
    assert Counts(s, t) by { CountsOf(s, id); }
    if reply.Arrived? {
      var heard := WithRx(s, id, reply.frame);
      DeliverQuietly(cfg, heard, id, reply.frame);
      FailureEffect(cfg, heard, id);
      ExtendTransmissions(s.wire, heard.wire[|s.wire|], t.txn);
    } else {
      FailureEffect(cfg, s, id);
    }
    OwnerKeepsCount(s, s', id);
  }

  lemma CountsOf(s: State, id: nat)
    requires AllCount(s) && id in s.tasks
    ensures Counts(s, s.tasks[id])
  {
  }

  lemma CountsStep(cfg: Config, s: State, a: Action)
    requires LocksAgree(s) && BlocksSafe(cfg, s) && AllCount(s) && Enabled(cfg, s, a)
    ensures AllCount(Next(cfg, s, a))
  {
    hide Counts, BlocksSafe, EnterTask, HearReply, Proceeds;
    if a.Tick? {
      TickCounts(s, Next(cfg, s, a));
    } else if a.TakeSerial? {
      TakeCounts(cfg, s, a.id);
    } else if a.Transmit? {
      TransmitCounts(cfg, s, a.id);
    } else if a.Hear? {
      HearCounts(cfg, s, a.id, a.reply);
    } else {
      SilentBlockEffect(cfg, s, a);
      var s' := Next(cfg, s, a);
      if a.Spawn? {
        OutsideCounts(s', s'.tasks[a.id]);
      } else {
        ProceedingCounts(cfg, s, s', a.id);
      }
      SilentKeepsCount(s, s', a.id);
    }
  }

  lemma TickCounts(s: State, s': State)
    requires AllCount(s) && s'.wire == s.wire && s'.tasks == s.tasks
    ensures AllCount(s')
  {
    forall id | id in s'.tasks
      ensures Counts(s', s'.tasks[id])
    {
      assert Counts(s, s.tasks[id]);
    }
  }

  lemma OutsideCounts(s: State, t: Task)
    requires !InTransaction(t)
    ensures Counts(s, t)
  {
  }

  lemma ProceedingCounts(cfg: Config, s: State, s': State, id: nat)
    requires AllCount(s) && id in s.tasks && id in s'.tasks && s'.wire == s.wire
    requires Proceeds(cfg, s.tasks[id], s'.tasks[id])
    ensures Counts(s', s'.tasks[id])
  {
    hide Transmissions;
    assert Counts(s, s.tasks[id]);
  }

  lemma {:induction false} CountsInRun(cfg: Config, states: seq<State>, actions: seq<Action>, i: nat)
    requires ValidConfig(cfg) && IsRun(cfg, states, actions) && i < |states|
    ensures AllCount(states[i])
  {
    hide Counts, Enabled, Next, BlocksSafe;
    if i > 0 {
      CountsInRun(cfg, states, actions, i - 1);
      LocksInRun(cfg, states, actions, i - 1);
      BlocksInRun(cfg, states, actions, i - 1);
      CountsStep(cfg, states[i - 1], actions[i - 1]);
    }
  }

  /** The attempt of transaction txn has failed: nothing came, or nothing that answers the request. */
  predicate Fails(t: Task, reply: Reply) {
    reply.Silence? || reply.Broken? || (reply.Arrived? && !Accepted(reply.frame, CodeOf(t)))
  }

  /**
    In every run, after k transmissions the next failed attempt is repeated exactly if k is below the
    limit, after a delay of the initial one times the multiplier to the k - 1; at the limit, and when
    the line breaks, the connection is closed; an accepted frame ends the transaction.
  */
  lemma FailureDecides(cfg: Config, states: seq<State>, actions: seq<Action>, i: nat, id: nat, reply: Reply)
    requires ValidConfig(cfg) && IsRun(cfg, states, actions) && i < |states|
    requires Enabled(cfg, states[i], Hear(id, reply))
    ensures var s, t := states[i], states[i].tasks[id];
            var s', k := Next(cfg, s, Hear(id, reply)), Transmissions(s.wire, t.txn);
            && 1 <= k <= cfg.maxRetries && id in s'.tasks
            && (if Fails(t, reply) then
                  s'.tasks[id].phase ==
                    if k < cfg.maxRetries then BackingOff(s.now + cfg.firstDelay * Power(cfg.multiplier, k - 1)) else Closing
                else if reply.Fault? then s'.tasks[id].phase == Closing
                else !InTransaction(s'.tasks[id]))
  {
    hide Transmissions, Deliver, Accepted, BlocksSafe, Power;
    CountsInRun(cfg, states, actions, i);
    BlocksInRun(cfg, states, actions, i);
    LocksInRun(cfg, states, actions, i);
    var s := states[i];
    assert Counts(s, s.tasks[id]) && LocksAgreeAt(s, id);
    if reply.Arrived? {
      DeliverQuietly(cfg, WithRx(s, id, reply.frame), id, reply.frame);
    }
  }

  /** When the delay is over the same request goes on to its next transmission. */
  lemma RetryFollows(cfg: Config, s: State, id: nat, u: real)
    requires id in s.tasks && s.tasks[id].phase == BackingOff(u) && s.now >= u
    ensures Enabled(cfg, s, BackoffOver(id))
    ensures var t' := Next(cfg, s, BackoffOver(id)).tasks[id];
            && t'.phase.GapWait? && t'.attempt == s.tasks[id].attempt + 1
            && t'.txn == s.tasks[id].txn && MessageOf(t') == MessageOf(s.tasks[id])
  {
    hide GapUntil;
  }

  /**
    The course of a command: it queues for the line, opens the connection or fails, passes the two
    gates and the drain, transmits and listens; a broken drain closes the connection, a closed
    connection, a failed opening and a cancellation end the command.
  */
  lemma CourseOfCommand(cfg: Config, s: State, a: Action)
    requires Enabled(cfg, s, a) && !a.Tick? && !a.Spawn? && !a.Hear?
    ensures var t, s' := s.tasks[a.id], Next(cfg, s, a);
            && a.id in s'.tasks
            && var phase := s'.tasks[a.id].phase;
               match a
               case Enter(_) =>
                 phase.Queued? || (t.job.ReadLoadcells? && phase.Finished? && |s'.log| == |s.log| + 1 && s'.log[|s.log|].Served?)
               case TakeSerial(_) => phase.Opening? && s'.tasks[a.id].attempt == 1
               case Opened(_, ok) => if ok then phase.GapWait? else phase.Finished?
               case GapOver(_) => phase.WireWait?
               case WireOver(_) => phase.Draining?
               case DrainFails(_) => phase.Closing?
               case Transmit(_) => phase.Listening? && |s'.wire| == |s.wire| + 1 && s'.wire[|s.wire|].Tx?
               case BackoffOver(_) => phase.GapWait?
               case SettleOver(_) => phase.Queued?
               case PauseOver(_) => phase.Queued?
               case _ => phase.Finished?
  {
    hide CacheHit, GapUntil, WireUntil;
  }
}

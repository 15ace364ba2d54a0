/**
  The shape of the wire trace: transactions appear one after the other as contiguous blocks,
  each a bounded number of transmissions of one identical message up to the first accepted
  frame, each frame directly after the transmission it is read for.
*/
module EngineBlocks {
  import opened Basics
  import opened FrameCodec
  import opened Engine
  import opened EngineLocks
  import opened EngineWire

  /** A frame that answers its transmission; it is delivered and ends the transaction. */
  predicate Answer(e: WireEvent) {
    e.Rx? && Accepted(e.frame, e.message.code)
  }

  /**
    An earlier event belongs to an earlier block, or to the same one at an earlier attempt that
    was not answered.
  */
  predicate Ordered(d: WireEvent, e: WireEvent) {
    || d.txn < e.txn
    || (d.txn == e.txn && d.task == e.task && d.message == e.message && !Answer(d)
        && d.attempt <= e.attempt && (d.Tx? && e.Tx? ==> d.attempt < e.attempt))
  }

  ghost predicate InBlocks(wire: seq<WireEvent>) {
    forall i, j | 0 <= i < j < |wire| :: Ordered(wire[i], wire[j])
  }

  predicate AnswerTo(d: WireEvent, e: WireEvent) {
    d.Tx? && e.Rx? && d.task == e.task && d.txn == e.txn && d.attempt == e.attempt && d.message == e.message
  }

  /** The line is half duplex: a complete frame directly follows the transmission it is read for. */
  ghost predicate HalfDuplex(wire: seq<WireEvent>) {
    forall i | 0 <= i < |wire| && wire[i].Rx? :: i > 0 && AnswerTo(wire[i - 1], wire[i])
  }

  predicate Numbered(cfg: Config, txns: nat, e: WireEvent) {
    1 <= e.txn <= txns && 1 <= e.attempt <= cfg.maxRetries
  }

  /** Still before the transmission of the current attempt. */
  predicate BeforeTx(phase: Phase) {
    phase.Opening? || phase.GapWait? || phase.WireWait? || phase.Draining?
  }

  predicate Own(s: State, id: nat, t: Task, e: WireEvent) {
    && e.task == id && e.message == MessageOf(t) && !Answer(e)
    && e.attempt <= t.attempt && (BeforeTx(t.phase) ==> e.attempt < t.attempt)
  }

  /** The running transaction owns the newest block, which holds its attempts so far. */
  ghost predicate Newest(cfg: Config, s: State, id: nat)
    requires id in s.tasks
  {
    var t := s.tasks[id];
    InTransaction(t) ==>
      && t.txn == s.txns >= 1 && 1 <= t.attempt <= cfg.maxRetries
      && (forall i | 0 <= i < |s.wire| && s.wire[i].txn == s.txns :: Own(s, id, t, s.wire[i]))
      && (t.phase.Listening? ==>
            && |s.wire| > 0
            && var e := s.wire[|s.wire| - 1];
               e.Tx? && e.task == id && e.txn == t.txn && e.attempt == t.attempt && e.message == MessageOf(t))
      && (t.phase.BackingOff? ==> t.attempt < cfg.maxRetries)
  }

  ghost predicate BlocksSafe(cfg: Config, s: State) {
    && (forall i | 0 <= i < |s.wire| :: Numbered(cfg, s.txns, s.wire[i]))
    && InBlocks(s.wire) && HalfDuplex(s.wire)
    && forall id | id in s.tasks :: Newest(cfg, s, id)
  }

  /** Steps that add nothing to the wire and start no transaction. */
  lemma SilentKeepsBlocks(cfg: Config, s: State, s': State, id: nat)
    requires BlocksSafe(cfg, s) && s'.wire == s.wire && s'.txns == s.txns
    requires id in s'.tasks && s'.tasks == s.tasks[id := s'.tasks[id]]
    requires Newest(cfg, s', id)
    ensures BlocksSafe(cfg, s')
  {
  }

  lemma TakeKeepsBlocks(cfg: Config, s: State, id: nat)
    requires ValidConfig(cfg) && LocksAgree(s) && BlocksSafe(cfg, s) && Enabled(cfg, s, TakeSerial(id))
    ensures BlocksSafe(cfg, Next(cfg, s, TakeSerial(id)))
  {
  }

  /** Appending an event of the running transaction to its own block. */
  lemma AppendKeepsBlocks(cfg: Config, s: State, s': State, id: nat, e: WireEvent)
    requires LocksAgree(s) && BlocksSafe(cfg, s) && id in s.tasks && InTransaction(s.tasks[id])
    requires s'.wire == s.wire + [e] && s'.txns == s.txns
    requires id in s'.tasks && s'.tasks == s.tasks[id := s'.tasks[id]]
    requires var t := s.tasks[id];
             && e.task == id && e.txn == t.txn && e.attempt == t.attempt && e.message == MessageOf(t)
             && (if e.Tx? then t.phase.Draining? else t.phase.Listening?)
    requires var t, t' := s.tasks[id], s'.tasks[id];
             InTransaction(t') ==>
               && !Answer(e) && !BeforeTx(t'.phase) && t' == t.(phase := t'.phase)
               && (t'.phase.Listening? ==> e.Tx?) && (t'.phase.BackingOff? ==> t.attempt < cfg.maxRetries)
    ensures BlocksSafe(cfg, s')
  {
    var n, t := |s.wire|, s.tasks[id];
    assert Newest(cfg, s, id);
    forall i | 0 <= i < n
      ensures Numbered(cfg, s'.txns, s'.wire[i]) && Ordered(s'.wire[i], e)
    {
      assert Numbered(cfg, s.txns, s.wire[i]);
      if s.wire[i].txn == s.txns { assert Own(s, id, t, s.wire[i]); }
    }
    assert InBlocks(s'.wire);
    assert HalfDuplex(s'.wire);
    forall other | other in s'.tasks
      ensures Newest(cfg, s', other)
    {
      if other != id {
        OthersOutside(s, id, other);
      } else {
        assert forall i | 0 <= i < n && s.wire[i].txn == s.txns :: Own(s, id, t, s.wire[i]) && s'.wire[i] == s.wire[i];
      }
    }
  }

  /** The task goes on with its attempt, starts the next one, or leaves its transaction. */
  predicate Proceeds(cfg: Config, t: Task, t': Task) {
    InTransaction(t') ==>
      && InTransaction(t) && t'.txn == t.txn && MessageOf(t') == MessageOf(t)
      && !t'.phase.Listening? && !t'.phase.BackingOff?
      && (if t.phase.BackingOff? then t'.attempt == t.attempt + 1
          else t'.attempt == t.attempt && (BeforeTx(t'.phase) ==> BeforeTx(t.phase)))
  }

  lemma OutsideIsNewest(cfg: Config, s: State, id: nat)
    requires id in s.tasks && !InTransaction(s.tasks[id])
    ensures Newest(cfg, s, id)
  {
  }

  lemma ProceedingKeepsNewest(cfg: Config, s: State, s': State, id: nat)
    requires id in s.tasks && Newest(cfg, s, id) && s'.wire == s.wire && s'.txns == s.txns
    requires id in s'.tasks && Proceeds(cfg, s.tasks[id], s'.tasks[id])
    ensures Newest(cfg, s', id)
  {
  }

  /** Actions other than taking the line, sending, hearing and time passing. */
  lemma SilentBlockEffect(cfg: Config, s: State, a: Action)
    requires Enabled(cfg, s, a) && !a.Tick? && !a.TakeSerial? && !a.Transmit? && !a.Hear?
    ensures var s' := Next(cfg, s, a);
            && s'.wire == s.wire && s'.txns == s.txns
            && a.id in s'.tasks && s'.tasks == s.tasks[a.id := s'.tasks[a.id]]
            && (if a.Spawn? then !InTransaction(s'.tasks[a.id])
                else a.id in s.tasks && Proceeds(cfg, s.tasks[a.id], s'.tasks[a.id]))
  {
    hide CacheHit, GapUntil, WireUntil;
  }

  lemma HearKeepsBlocks(cfg: Config, s: State, id: nat, reply: Reply)
    requires LocksAgree(s) && BlocksSafe(cfg, s)
    requires id in s.tasks && s.tasks[id].phase.Listening?
    ensures BlocksSafe(cfg, HearReply(cfg, s, id, reply))
  {
    hide Accepted, Deliver, AfterFailure, BlocksSafe, Newest;
    var s' := HearReply(cfg, s, id, reply);
    match reply {
      case Arrived(frame) =>
        var heard := WithRx(s, id, frame);
        DeliverQuietly(cfg, heard, id, frame);
        FailureEffect(cfg, heard, id);
        AppendKeepsBlocks(cfg, s, s', id, heard.wire[|s.wire|]);
      case Fault =>
        FailedKeepsNewest(cfg, s, s', id);
        SilentKeepsBlocks(cfg, s, s', id);
      case _ =>
        FailureEffect(cfg, s, id);
        FailedKeepsNewest(cfg, s, s', id);
        SilentKeepsBlocks(cfg, s, s', id);
    }
  }

  lemma FailedKeepsNewest(cfg: Config, s: State, s': State, id: nat)
    requires BlocksSafe(cfg, s) && id in s.tasks && s.tasks[id].phase.Listening?
    requires s'.wire == s.wire && s'.txns == s.txns && id in s'.tasks
    requires s'.tasks[id] == s.tasks[id].(phase := s'.tasks[id].phase)
    requires s'.tasks[id].phase.BackingOff? || s'.tasks[id].phase.Closing?
    requires s'.tasks[id].phase.BackingOff? ==> s.tasks[id].attempt < cfg.maxRetries
    ensures Newest(cfg, s', id)
  {
  }

  lemma BlocksStep(cfg: Config, s: State, a: Action)
    requires ValidConfig(cfg) && LocksAgree(s) && BlocksSafe(cfg, s) && Enabled(cfg, s, a)
    ensures BlocksSafe(cfg, Next(cfg, s, a))
  {
    hide Newest, Own, Proceeds, EnterTask, HearReply;
    if a.Tick? {
      var s' := Next(cfg, s, a);
      forall id | id in s'.tasks ensures Newest(cfg, s', id) { TickKeepsNewest(cfg, s, s', id); }
    } else if a.TakeSerial? {
      TakeKeepsBlocks(cfg, s, a.id);
    } else if a.Transmit? {
      TransmitKeepsBlocks(cfg, s, a.id);
    } else if a.Hear? {
      HearKeepsBlocks(cfg, s, a.id, a.reply);
    } else {
      SilentBlockEffect(cfg, s, a);
      var s' := Next(cfg, s, a);
      if a.Spawn? {
        OutsideIsNewest(cfg, s', a.id);
      } else {
        ProceedingKeepsNewest(cfg, s, s', a.id);
      }
      SilentKeepsBlocks(cfg, s, s', a.id);
    }
  }

  lemma TickKeepsNewest(cfg: Config, s: State, s': State, id: nat)
    requires id in s.tasks && Newest(cfg, s, id) && s' == s.(now := s'.now)
    ensures Newest(cfg, s', id)
  {
  }

  lemma TransmitKeepsBlocks(cfg: Config, s: State, id: nat)
    requires ValidConfig(cfg) && LocksAgree(s) && BlocksSafe(cfg, s) && Enabled(cfg, s, Transmit(id))
    ensures BlocksSafe(cfg, Next(cfg, s, Transmit(id)))
  {
    var t := s.tasks[id];
    AppendKeepsBlocks(cfg, s, Next(cfg, s, Transmit(id)), id, Tx(id, t.txn, t.attempt, MessageOf(t), s.now));
  }

  /** In every run the trace splits into blocks. */
  lemma {:induction false} BlocksInRun(cfg: Config, states: seq<State>, actions: seq<Action>, i: nat)
    requires ValidConfig(cfg) && IsRun(cfg, states, actions) && i < |states|
    ensures BlocksSafe(cfg, states[i])
    ensures InBlocks(states[i].wire) && HalfDuplex(states[i].wire)
    ensures forall txn :: Transmissions(states[i].wire, txn) <= cfg.maxRetries
  {
    if i > 0 {
      BlocksInRun(cfg, states, actions, i - 1);
      LocksInRun(cfg, states, actions, i - 1);
      BlocksStep(cfg, states[i - 1], actions[i - 1]);
    }
    forall txn
      ensures Transmissions(states[i].wire, txn) <= cfg.maxRetries
    {
      var last := TransmissionsBounded(cfg, states[i].txns, states[i].wire, txn);
    }
  }

  // ---------------------------------------------------------------- counting

  /** How often a transaction transmitted. */
  function Transmissions(wire: seq<WireEvent>, txn: nat): nat {
    if |wire| == 0 then 0
    else
      var e := wire[|wire| - 1];
      Transmissions(wire[..|wire| - 1], txn) + (if e.Tx? && e.txn == txn then 1 else 0)
  }

  /** A block transmits at most once per attempt, so at most maxRetries times. */
  lemma {:induction false} TransmissionsBounded(cfg: Config, txns: nat, wire: seq<WireEvent>, txn: nat) returns (last: int)
    requires InBlocks(wire) && forall i | 0 <= i < |wire| :: Numbered(cfg, txns, wire[i])
    ensures Transmissions(wire, txn) <= cfg.maxRetries
    ensures Transmissions(wire, txn) == 0 || (0 <= last < |wire| && wire[last].Tx? && wire[last].txn == txn
                                              && Transmissions(wire, txn) <= wire[last].attempt)
  {
    last := -1;
    if |wire| > 0 {
      var n := |wire| - 1;
      assert forall i | 0 <= i < n :: wire[..n][i] == wire[i];
      last := TransmissionsBounded(cfg, txns, wire[..n], txn);
      assert Numbered(cfg, txns, wire[n]);
      if wire[n].Tx? && wire[n].txn == txn {
        if Transmissions(wire[..n], txn) > 0 {
          assert Ordered(wire[last], wire[n]);
        }
        last := n;
      }
    }
  }
}

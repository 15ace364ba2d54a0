/**
  The timing gates are tight: a transaction waits no longer than the gaps demand.
*/
module EngineGates {
  import opened Basics
  import opened FrameCodec
  import opened Engine
  import opened EngineLocks
  import opened EngineWire

  /** The timer runs to the end of the gap it stands for at most. */
  predicate Tight(cfg: Config, s: State, t: Task) {
    match t.phase
    case GapWait(u) => u <= s.now || (s.lastRx.Some? && u <= s.lastRx.value + cfg.interGap)
    case WireWait(u) => u <= s.now || (CodeOf(t) == RQIW && RQIW in s.lastTx && u <= s.lastTx[RQIW] + cfg.loadGap)
    case _ => true
  }

  ghost predicate GatesTight(cfg: Config, s: State) {
    forall id | id in s.tasks :: Tight(cfg, s, s.tasks[id])
  }

  lemma SilentTight(cfg: Config, s: State, a: Action)
    requires Enabled(cfg, s, a) && !a.Tick? && !a.Transmit? && !a.Hear?
    requires a.Spawn? || Tight(cfg, s, s.tasks[a.id])
    ensures var s' := Next(cfg, s, a);
            && SameRadio(s, s')
            && a.id in s'.tasks && s'.tasks == s.tasks[a.id := s'.tasks[a.id]]
            && Tight(cfg, s', s'.tasks[a.id])
  {
    hide CacheHit;
  }

  /** A step of the radio by one task; the others are outside their transactions. */
  lemma RadioKeepsTight(cfg: Config, s: State, s': State, id: nat)
    requires LocksAgree(s) && id in s.tasks && InTransaction(s.tasks[id])
    requires id in s'.tasks && s'.tasks == s.tasks[id := s'.tasks[id]]
    requires !s'.tasks[id].phase.GapWait? && !s'.tasks[id].phase.WireWait?
    ensures GatesTight(cfg, s')
  {
    forall other | other in s'.tasks
      ensures Tight(cfg, s', s'.tasks[other])
    {
      if other != id { OthersOutside(s, id, other); }
    }
  }

  lemma HearTight(cfg: Config, s: State, id: nat, reply: Reply)
    requires LocksAgree(s) && Enabled(cfg, s, Hear(id, reply))
    ensures GatesTight(cfg, HearReply(cfg, s, id, reply))
  {
    hide Accepted, Deliver, AfterFailure, GatesTight;
    var s' := HearReply(cfg, s, id, reply);
    if reply.Arrived? {
      var heard := WithRx(s, id, reply.frame);
      DeliverQuietly(cfg, heard, id, reply.frame);
      FailureEffect(cfg, heard, id);
    } else {
      FailureEffect(cfg, s, id);
    }
    RadioKeepsTight(cfg, s, s', id);
  }

  lemma GatesStep(cfg: Config, s: State, a: Action)
    requires LocksAgree(s) && GatesTight(cfg, s) && Enabled(cfg, s, a)
    ensures GatesTight(cfg, Next(cfg, s, a))
  {
    hide EnterTask, HearReply;
    if a.Transmit? {
      RadioKeepsTight(cfg, s, Next(cfg, s, a), a.id);
    } else if a.Hear? {
      HearTight(cfg, s, a.id, a.reply);
    } else if !a.Tick? {
      SilentTight(cfg, s, a);
      OthersTight(cfg, s, Next(cfg, s, a), a.id);
    }
  }

  lemma OthersTight(cfg: Config, s: State, s': State, id: nat)
    requires GatesTight(cfg, s) && SameRadio(s, s')
    requires id in s'.tasks && s'.tasks == s.tasks[id := s'.tasks[id]] && Tight(cfg, s', s'.tasks[id])
    ensures GatesTight(cfg, s')
  {
    forall other | other in s'.tasks
      ensures Tight(cfg, s', s'.tasks[other])
    {
      if other != id { assert Tight(cfg, s, s.tasks[other]); }
    }
  }

  lemma {:induction false} GatesInRun(cfg: Config, states: seq<State>, actions: seq<Action>, i: nat)
    requires IsRun(cfg, states, actions) && i < |states|
    ensures GatesTight(cfg, states[i])
  {
    hide Tight, Enabled, Next;
    if i > 0 {
      GatesInRun(cfg, states, actions, i - 1);
      LocksInRun(cfg, states, actions, i - 1);
      GatesStep(cfg, states[i - 1], actions[i - 1]);
    }
  }

  /**
    In every run no transaction waits needlessly: once the quiet time after the last complete frame
    is over the first gate opens, and once the spacing of loadcell requests is over, or for any other
    request, the second one does.
  */
  lemma GatesOpen(cfg: Config, states: seq<State>, actions: seq<Action>, i: nat, id: nat)
    requires IsRun(cfg, states, actions) && i < |states| && id in states[i].tasks
    ensures var s, t := states[i], states[i].tasks[id];
            && (t.phase.GapWait? && (s.lastRx.None? || s.now >= s.lastRx.value + cfg.interGap) ==>
                  Enabled(cfg, s, GapOver(id)))
            && (t.phase.WireWait?
                && (CodeOf(t) != RQIW || RQIW !in s.lastTx || s.now >= s.lastTx[RQIW] + cfg.loadGap) ==>
                  Enabled(cfg, s, WireOver(id)))
  {
    GatesInRun(cfg, states, actions, i);
    assert Tight(cfg, states[i], states[i].tasks[id]);
  }
}

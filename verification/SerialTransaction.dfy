/**
  One serial transaction as the service runs it: the retry loop over a shared line, with its
  two pacing gates, its geometric backoff and the error each kind of failure ends in.
  Device and scheduler are a script: what becomes of every attempt, and how long it takes.
*/
module SerialTransaction {
  import opened Basics
  import opened FrameCodec
  import Engine

  type Config = Engine.Config

  // ---------------------------------------------------------------- outcomes

  datatype Outcome =
    | Answered(frame: seq<byte>)      // the reader cut a complete frame
    | TimedOut                        // a phase of the reader ran out of time
    | CutShort                        // the stream ended inside the frame
    | DrainFault                      // the line broke before anything was sent
    | Fault                           // the line broke while sending or reading

  datatype Error = ConnectionFailed | ChecksumMismatch | InvalidResponse | Timeout | IncompleteRead | Unexpected

  datatype Result = Received(frame: seq<byte>) | Raised(error: Error)

  /** One attempt: each of its sleeps wakes late by some time, draining and answering take time. */
  datatype Attempt = Attempt(
    outcome: Outcome,
    lateGap: real,
    lateInterval: real,
    lateBackoff: real,
    drain: real,
    answer: real)

  predicate Timely(a: Attempt) {
    a.lateGap >= 0.0 && a.lateInterval >= 0.0 && a.lateBackoff >= 0.0 && a.drain >= 0.0 && a.answer >= 0.0
  }

  /** What a transaction ends with if this is its last attempt. */
  function Ending(expected: Option<Code>, outcome: Outcome): Result {
    match outcome
    case Answered(frame) =>
      if Accepts(frame, expected) then Received(frame)
      else if !ChecksumValid(frame) then Raised(ChecksumMismatch)
      else Raised(InvalidResponse)
    case TimedOut => Raised(Timeout)
    case CutShort => Raised(IncompleteRead)
    case DrainFault => Raised(Unexpected)
    case Fault => Raised(Unexpected)
  }

  /** Another attempt follows if any are left. */
  predicate Retryable(expected: Option<Code>, outcome: Outcome) {
    Ending(expected, outcome).Raised? && Ending(expected, outcome).error != Unexpected
  }

  /**
    The specification: attempts go on while they fail in a repeatable way and any are left,
    and the last one alone decides the result.
  */
  ghost predicate Concludes(max: nat, expected: Option<Code>, script: seq<Attempt>, attempts: nat, result: Result) {
    && 1 <= attempts <= max <= |script|
    && (forall k | 0 <= k < attempts - 1 :: Retryable(expected, script[k].outcome))
    && (attempts < max ==> !Retryable(expected, script[attempts - 1].outcome))
    && result == Ending(expected, script[attempts - 1].outcome)
  }

  /** The specification leaves no choice. */
  lemma ConclusionUnique(max: nat, expected: Option<Code>, script: seq<Attempt>, n: nat, r: Result, n': nat, r': Result)
    requires Concludes(max, expected, script, n, r) && Concludes(max, expected, script, n', r')
    ensures n == n' && r == r'
  {
  }

  /**
    Which error ends a transaction: it is fixed by the last attempt alone, and everything before
    that was a timeout, a cut or a discarded frame.
  */
  lemma ErrorOfLastAttempt(max: nat, expected: Option<Code>, script: seq<Attempt>, attempts: nat, result: Result)
    requires Concludes(max, expected, script, attempts, result)
    ensures match script[attempts - 1].outcome
            case TimedOut => attempts == max && result == Raised(Timeout)
            case CutShort => attempts == max && result == Raised(IncompleteRead)
            case DrainFault => result == Raised(Unexpected)
            case Fault => result == Raised(Unexpected)
            case Answered(frame) =>
              if !ChecksumValid(frame) then attempts == max && result == Raised(ChecksumMismatch)
              else if expected.Some? && ResponseCodes(frame) != Some(CodeBytes(expected.value)) then
                attempts == max && result == Raised(InvalidResponse)
              else result == Received(frame)
    ensures forall k | 0 <= k < attempts - 1 ::
              match script[k].outcome
              case Answered(frame) =>
                !ChecksumValid(frame) || (expected.Some? && ResponseCodes(frame) != Some(CodeBytes(expected.value)))
              case TimedOut => true
              case CutShort => true
              case _ => false
  {
    hide ChecksumValid, ResponseCodes, CodeBytes;
    forall k | 0 <= k < attempts - 1
      ensures Retryable(expected, script[k].outcome)
    {
    }
  }

  predicate Acceptable(expected: Option<Code>, outcome: Outcome) {
    outcome.Answered? && Accepts(outcome.frame, expected)
  }

  predicate Breaks(outcome: Outcome) {
    outcome.DrainFault? || outcome.Fault?
  }

  /** A frame is returned exactly if some attempt within the limit yields an acceptable one and
      nothing breaks before it; it is then the first acceptable one. */
  lemma FirstAcceptableWins(max: nat, expected: Option<Code>, script: seq<Attempt>, attempts: nat, result: Result, k: nat)
    requires Concludes(max, expected, script, attempts, result)
    requires k < max && forall i | 0 <= i < k :: !Acceptable(expected, script[i].outcome) && !Breaks(script[i].outcome)
    ensures Acceptable(expected, script[k].outcome) ==> attempts == k + 1 && result == Received(script[k].outcome.frame)
    ensures Breaks(script[k].outcome) ==> attempts == k + 1 && result == Raised(Unexpected)
    ensures k == max - 1 && !Acceptable(expected, script[k].outcome) ==>
              result == Ending(expected, script[k].outcome) && result.Raised?
  {
  }

  /** The retry loop keeps a frame exactly when the step machine delivers it. */
  lemma KeptIffDelivered(frame: seq<byte>, code: Code)
    ensures Ending(Some(code), Answered(frame)).Received? <==> Engine.Accepted(Engine.View(frame), code)
  {
    hide Accepts, ChecksumValid, Engine.View, Engine.Accepted;
    Engine.ViewAccepts(frame, code);
  }

  // ---------------------------------------------------------------- backoff

  /** Total backoff after the given number of failed attempts. */
  function TotalBackoff(cfg: Config, failed: nat): real {
    if failed == 0 then 0.0 else TotalBackoff(cfg, failed - 1) + Engine.Backoff(cfg, failed)
  }

  lemma FirstBackoff(cfg: Config)
    ensures Engine.Backoff(cfg, 1) == cfg.firstDelay
  {
  }

  /** Multiplying the delay once more is the next power. */
  lemma NextBackoff(cfg: Config, attempt: nat)
    requires attempt >= 1
    ensures Engine.Backoff(cfg, attempt + 1) == Engine.Backoff(cfg, attempt) * cfg.multiplier
  {
  }

  /** Closed form of the geometric sum. */
  lemma {:induction false} TotalBackoffIs(cfg: Config, failed: nat)
    ensures TotalBackoff(cfg, failed) * (cfg.multiplier - 1.0) == cfg.firstDelay * (Power(cfg.multiplier, failed) - 1.0)
  {
    if failed > 0 {
      TotalBackoffIs(cfg, failed - 1);
      var total, p := TotalBackoff(cfg, failed - 1), Power(cfg.multiplier, failed - 1);
      GeometricStep(total, cfg.firstDelay, cfg.multiplier, p);
      TotalBackoffNext(cfg, failed);
      assert Power(cfg.multiplier, failed) == p * cfg.multiplier;
    }
  }

  lemma TotalBackoffNext(cfg: Config, failed: nat)
    requires failed > 0
    ensures TotalBackoff(cfg, failed) == TotalBackoff(cfg, failed - 1) + cfg.firstDelay * Power(cfg.multiplier, failed - 1)
  {
  }

  /** A constant backoff adds up linearly. */
  lemma {:induction false} ConstantBackoff(cfg: Config, failed: nat)
    requires cfg.multiplier == 1.0
    ensures TotalBackoff(cfg, failed) == failed as real * cfg.firstDelay
  {
    if failed > 0 {
      ConstantBackoff(cfg, failed - 1);
      OneToThe(failed - 1);
      TotalBackoffNext(cfg, failed);
      assert failed as real == (failed - 1) as real + 1.0;
      assert ((failed - 1) as real + 1.0) * cfg.firstDelay == (failed - 1) as real * cfg.firstDelay + cfg.firstDelay;
    }
  }

  lemma {:induction false} OneToThe(n: nat)
    ensures Power(1.0, n) == 1.0
  {
    if n > 0 {
      OneToThe(n - 1);
    }
  }

  lemma GeometricStep(total: real, d: real, m: real, p: real)
    requires total * (m - 1.0) == d * (p - 1.0)
    ensures (total + d * p) * (m - 1.0) == d * (p * m - 1.0)
  {
  }

  lemma BackoffNonNegative(cfg: Config, attempt: nat)
    requires Engine.ValidConfig(cfg)
    ensures Engine.Backoff(cfg, attempt) >= 0.0
  {
    var exponent := if attempt > 0 then attempt - 1 else 0;
    PowerNonNegative(cfg.multiplier, exponent);
    assert cfg.firstDelay * Power(cfg.multiplier, exponent) >= 0.0;
  }

  // ---------------------------------------------------------------- trace

  datatype Event =
    | Tx(txn: nat, attempt: nat, message: seq<byte>, time: real)
    | Rx(txn: nat, attempt: nat, frame: seq<byte>, time: real)

  /** Requests count as the same one if STX and codes agree. */
  function Key(message: seq<byte>): seq<byte> {
    if |message| < 5 then message else message[..5]
  }

  /** Two printed requests count as the same exactly if their codes agree, whatever data they carry. */
  lemma SameRequestIff(a: Code, x: seq<byte>, b: Code, y: seq<byte>)
    ensures Key(Frame(CodeBytes(a) + x)) == Key(Frame(CodeBytes(b) + y)) <==> a == b
  {
    hide CodeBytes, XorFold;
    var f, g := Frame(CodeBytes(a) + x), Frame(CodeBytes(b) + y);
    assert f[..5] == [STX] + CodeBytes(a) && g[..5] == [STX] + CodeBytes(b);
    assert ([STX] + CodeBytes(a))[1..] == CodeBytes(a) && ([STX] + CodeBytes(b))[1..] == CodeBytes(b);
    LookupInvertsCodeBytes(a);
    LookupInvertsCodeBytes(b);
  }

  function Untimed(events: seq<Event>): (u: seq<Event>)
    ensures |u| == |events|
  {
    seq(|events|, i requires 0 <= i < |events| => events[i].(time := 0.0))
  }

  /** What one attempt leaves on the wire. */
  function Footprint(txn: nat, attempt: nat, message: seq<byte>, outcome: Outcome): seq<Event> {
    (if outcome.DrainFault? then [] else [Tx(txn, attempt, message, 0.0)])
    + (if outcome.Answered? then [Rx(txn, attempt, outcome.frame, 0.0)] else [])
  }

  function Footprints(txn: nat, message: seq<byte>, script: seq<Attempt>): seq<Event> {
    if |script| == 0 then []
    else
      var n := |script| - 1;
      Footprints(txn, message, script[..n]) + Footprint(txn, n + 1, message, script[n].outcome)
  }

  /** The attempt numbers of the transmissions of a message. */
  function Sent(events: seq<Event>, txn: nat, message: seq<byte>): seq<nat> {
    if |events| == 0 then []
    else
      var e, before := events[|events| - 1], Sent(events[..|events| - 1], txn, message);
      if e.Tx? && e.txn == txn && e.message == message then before + [e.attempt] else before
  }

  /** The frames received. */
  function Frames(events: seq<Event>): seq<seq<byte>> {
    if |events| == 0 then []
    else
      var e, before := events[|events| - 1], Frames(events[..|events| - 1]);
      if e.Rx? then before + [e.frame] else before
  }

  /** The frames the device answered with, in the order of the attempts. */
  function AnsweredFrames(script: seq<Attempt>): seq<seq<byte>> {
    if |script| == 0 then []
    else
      var o, before := script[|script| - 1].outcome, AnsweredFrames(script[..|script| - 1]);
      match o
      case Answered(frame) => before + [frame]
      case _ => before
  }

  lemma ExtendTrace(events: seq<Event>, e: Event, txn: nat, message: seq<byte>)
    ensures Sent(events + [e], txn, message)
              == Sent(events, txn, message) + (if e.Tx? && e.txn == txn && e.message == message then [e.attempt] else [])
    ensures Frames(events + [e]) == Frames(events) + (if e.Rx? then [e.frame] else [])
  {
    assert (events + [e])[..|events|] == events;
  }

  /**
    What a transaction puts on the wire: its message once per attempt, numbered from one, unless
    the line broke before sending; what it takes off: exactly the device's answers, in order.
  */
  lemma {:induction false} FootprintsAre(txn: nat, message: seq<byte>, script: seq<Attempt>)
    requires forall k | 0 <= k < |script| - 1 :: !script[k].outcome.DrainFault?
    ensures var sent := Sent(Footprints(txn, message, script), txn, message);
            && |sent| == (if |script| > 0 && script[|script| - 1].outcome.DrainFault? then |script| - 1 else |script|)
            && forall k | 0 <= k < |sent| :: sent[k] == k + 1
    ensures Frames(Footprints(txn, message, script)) == AnsweredFrames(script)
  {
    hide Sent, Frames, Footprints, Footprint;
    NoEvents(txn, message);
    FootprintsStep(txn, message, script);
    if |script| > 0 {
      var n := |script| - 1;
      var before, tx := Footprints(txn, message, script[..n]), Tx(txn, n + 1, message, 0.0);
      FootprintsAre(txn, message, script[..n]);
      ExtendTrace(before, tx, txn, message);
      if script[n].outcome.Answered? {
        ExtendTrace(before + [tx], Rx(txn, n + 1, script[n].outcome.frame, 0.0), txn, message);
      }
    }
  }

  lemma FootprintsStep(txn: nat, message: seq<byte>, script: seq<Attempt>)
    ensures |script| == 0 ==> Footprints(txn, message, script) == []
    ensures |script| > 0 ==>
              var n := |script| - 1;
              var before, tx := Footprints(txn, message, script[..n]), Tx(txn, n + 1, message, 0.0);
              Footprints(txn, message, script) == match script[n].outcome
                case DrainFault => before
                case Answered(frame) => before + [tx] + [Rx(txn, n + 1, frame, 0.0)]
                case _ => before + [tx]
  {
  }

  lemma NoEvents(txn: nat, message: seq<byte>)
    ensures Sent([], txn, message) == [] && Frames([]) == []
  {
  }

  predicate Spacing(gap: real, interval: real, before: Event, after: Event) {
    after.Tx? ==>
      && (before.Rx? ==> after.time - before.time >= gap)
      && (before.Tx? && Key(before.message) == Key(after.message) ==> after.time - before.time >= interval)
  }

  /** From the given position on, every transmission keeps its distance from everything before. */
  ghost predicate SpacedFrom(gap: real, interval: real, wire: seq<Event>, from: nat) {
    forall i, j | 0 <= i < j < |wire| && from <= j :: Spacing(gap, interval, wire[i], wire[j])
  }

  /**
    The trace of the first attempts of a transaction: nothing before it is touched, each attempt
    leaves exactly its footprint, and every transmission keeps its distance.
  */
  ghost predicate Traced(cfg: Config, interval: real, txn: nat, message: seq<byte>, script: seq<Attempt>,
                         start: seq<Event>, wire: seq<Event>)
  {
    && |wire| >= |start| && wire[..|start|] == start
    && Untimed(wire[|start|..]) == Footprints(txn, message, script)
    && SpacedFrom(cfg.interGap, interval, wire, |start|)
  }

  lemma TraceStarts(cfg: Config, interval: real, txn: nat, message: seq<byte>, script: seq<Attempt>, start: seq<Event>)
    ensures Traced(cfg, interval, txn, message, script[..0], start, start)
  {
  }

  /** The trace after one more attempt. */
  lemma TraceGrows(cfg: Config, interval: real, txn: nat, message: seq<byte>, script: seq<Attempt>, n: nat,
                   start: seq<Event>, before: seq<Event>, after: seq<Event>)
    requires n < |script| && |before| <= |after| && after[..|before|] == before
    requires Traced(cfg, interval, txn, message, script[..n], start, before)
    requires Untimed(after[|before|..]) == Footprint(txn, n + 1, message, script[n].outcome)
    requires SpacedFrom(cfg.interGap, interval, after, |before|)
    ensures Traced(cfg, interval, txn, message, script[..n + 1], start, after)
  {
    hide Spacing, Footprint;
    assert script[..n + 1][..n] == script[..n];
    assert Untimed(after[|start|..]) == Untimed(before[|start|..]) + Untimed(after[|before|..]);
    assert forall i | 0 <= i < |before| :: after[i] == before[i];
  }

  // ---------------------------------------------------------------- the line

  class SerialLine {
    var now: real
    var lastRequestTx: map<seq<byte>, real>
    var lastRxComplete: Option<real>
    var transactionSequence: nat
    var connected: bool
    ghost var wire: seq<Event>

    /** The recorded times bound everything on the wire; nothing lies in the future. */
    ghost predicate Valid()
      reads this
    {
      && (forall i | 0 <= i < |wire| :: Recorded(wire[i]))
      && (forall key | key in lastRequestTx :: lastRequestTx[key] <= now)
      && (lastRxComplete.Some? ==> lastRxComplete.value <= now)
    }

    ghost predicate Recorded(e: Event)
      reads this
    {
      && (e.Tx? ==> Key(e.message) in lastRequestTx && e.time <= lastRequestTx[Key(e.message)])
      && (e.Rx? ==> lastRxComplete.Some? && e.time <= lastRxComplete.value)
    }

    constructor ()
      ensures Valid() && wire == [] && transactionSequence == 0 && !connected
    {
      now := 0.0;
      lastRequestTx := map[];
      lastRxComplete := None;
      transactionSequence := 0;
      connected := false;
      wire := [];
    }

    /** One of the two gaps is not over yet. */
    ghost predicate MustWait(gap: real, interval: real, message: seq<byte>)
      reads this
    {
      || (lastRxComplete.Some? && now < lastRxComplete.value + gap)
      || (Key(message) in lastRequestTx && now < lastRequestTx[Key(message)] + interval)
    }

    /** Waking up takes at least the requested time. */
    method Sleep(duration: real, late: real)
      requires Valid() && duration >= 0.0 && late >= 0.0
      modifies `now
      ensures Valid() && now == old(now) + duration + late
    {
      now := now + duration + late;
    }

    method RespectInterCommandGap(gap: real, late: real)
      requires Valid() && gap >= 0.0 && late >= 0.0
      modifies `now
      ensures Valid() && now >= old(now)
      ensures lastRxComplete.Some? ==> now >= lastRxComplete.value + gap
      ensures now == old(now) ||
                (lastRxComplete.Some? && old(now) < lastRxComplete.value + gap && now == lastRxComplete.value + gap + late)
    {
      if gap <= 0.0 || lastRxComplete.None? {
        return;
      }
      var remaining := gap - (now - lastRxComplete.value);
      if remaining > 0.0 {
        Sleep(remaining, late);
      }
    }

    method RespectWireMinGap(message: seq<byte>, interval: real, late: real)
      requires Valid() && interval >= 0.0 && late >= 0.0
      modifies `now
      ensures Valid() && now >= old(now)
      ensures Key(message) in lastRequestTx ==> now >= lastRequestTx[Key(message)] + interval
      ensures now == old(now) ||
                (var key := Key(message);
                 key in lastRequestTx && old(now) < lastRequestTx[key] + interval && now == lastRequestTx[key] + interval + late)
    {
      var key := Key(message);
      if interval <= 0.0 || key !in lastRequestTx {
        return;
      }
      var remaining := interval - (now - lastRequestTx[key]);
      if remaining > 0.0 {
        Sleep(remaining, late);
      }
    }

    /** Stamps and records a transmission; both gates have been waited for. */
    method Transmit(gap: real, interval: real, message: seq<byte>, txn: nat, attempt: nat)
      requires Valid() && (lastRxComplete.Some? ==> now >= lastRxComplete.value + gap)
      requires Key(message) in lastRequestTx ==> now >= lastRequestTx[Key(message)] + interval
      modifies `lastRequestTx, `wire
      ensures Valid() && wire == old(wire) + [Tx(txn, attempt, message, now)]
      ensures SpacedFrom(gap, interval, wire, |old(wire)|)
    {
      hide Key;
      var tx := Tx(txn, attempt, message, now);
      assert forall i | 0 <= i < |wire| :: Recorded(wire[i]) && Spacing(gap, interval, wire[i], tx);
      lastRequestTx := lastRequestTx[Key(message) := now];
      wire := wire + [tx];
    }

    method Receive(frame: seq<byte>, txn: nat, attempt: nat)
      requires Valid()
      modifies `lastRxComplete, `wire
      ensures Valid() && wire == old(wire) + [Rx(txn, attempt, frame, now)]
    {
      hide Key;
      assert forall i | 0 <= i < |wire| :: Recorded(wire[i]);
      lastRxComplete := Some(now);
      wire := wire + [Rx(txn, attempt, frame, now)];
    }

    /** Both gates, the drain, one transmission and whatever comes back. */
    method Exchange(cfg: Config, message: seq<byte>, interval: real, txn: nat, attempt: nat, a: Attempt)
      requires Valid() && Engine.ValidConfig(cfg) && interval >= 0.0 && Timely(a)
      modifies `now, `lastRequestTx, `lastRxComplete, `wire
      ensures Valid() && now >= old(now)
      ensures |wire| >= |old(wire)| && wire[..|old(wire)|] == old(wire)
      ensures Untimed(wire[|old(wire)|..]) == Footprint(txn, attempt, message, a.outcome)
      ensures SpacedFrom(cfg.interGap, interval, wire, |old(wire)|)
      ensures a.outcome.DrainFault? ==> wire == old(wire)
      ensures !a.outcome.DrainFault? ==>
                && |wire| > |old(wire)| && now == wire[|old(wire)|].time + a.answer
                && wire == old(wire) + [Tx(txn, attempt, message, now - a.answer)]
                         + (if a.outcome.Answered? then [Rx(txn, attempt, a.outcome.frame, now)] else [])
                && (!old(MustWait(cfg.interGap, interval, message)) ==> wire[|old(wire)|].time == old(now) + a.drain)
    {
      hide Key;
      RespectInterCommandGap(cfg.interGap, a.lateGap);
      RespectWireMinGap(message, interval, a.lateInterval);
      now := now + a.drain;
      if a.outcome.DrainFault? {
        return;
      }
      Transmit(cfg.interGap, interval, message, txn, attempt);
      now := now + a.answer;
      if a.outcome.Answered? {
        Receive(a.outcome.frame, txn, attempt);
      }
    }

    /** Whether a frame is kept: first the checksum, then the codes. */
    static method Judge(expected: Option<Code>, outcome: Outcome) returns (ending: Result)
      ensures ending == Ending(expected, outcome)
    {
      match outcome {
        case Answered(frame) =>
          if !ChecksumValid(frame) {
            return Raised(ChecksumMismatch);
          }
          if expected.Some? && ResponseCodes(frame) != Some(CodeBytes(expected.value)) {
            return Raised(InvalidResponse);
          }
          return Received(frame);
        case TimedOut => return Raised(Timeout);
        case CutShort => return Raised(IncompleteRead);
        case _ => return Raised(Unexpected);
      }
    }

    /** Sleeps through the delay after the given attempt and makes the next one longer. */
    method BackOff(cfg: Config, ghost attempt: nat, delay: real, late: real) returns (next: real)
      requires Valid() && Engine.ValidConfig(cfg) && attempt >= 1 && late >= 0.0
      requires delay == Engine.Backoff(cfg, attempt)
      modifies `now
      ensures Valid() && now >= old(now) + delay && delay >= 0.0
      ensures next == Engine.Backoff(cfg, attempt + 1)
    {
      BackoffNonNegative(cfg, attempt);
      NextBackoff(cfg, attempt);
      Sleep(delay, late);
      next := delay * cfg.multiplier;
    }

    /** The retry loop on an open connection. */
    method Converse(cfg: Config, message: seq<byte>, expected: Option<Code>, interval: real, txn: nat, script: seq<Attempt>)
      returns (result: Result, attempts: nat, slept: real)
      requires Valid() && Engine.ValidConfig(cfg) && interval >= 0.0
      requires |script| >= cfg.maxRetries && forall k | 0 <= k < |script| :: Timely(script[k])
      modifies `now, `lastRequestTx, `lastRxComplete, `wire
      ensures Valid() && now >= old(now) + slept
      ensures Concludes(cfg.maxRetries, expected, script, attempts, result)
      ensures slept == TotalBackoff(cfg, attempts - 1)
      ensures Traced(cfg, interval, txn, message, script[..attempts], old(wire), wire)
    {
      hide Valid, Traced, SpacedFrom, Untimed, Footprint, Accepts, ChecksumValid, Engine.Backoff;
      attempts, slept := 0, 0.0;
      FirstBackoff(cfg);
      TraceStarts(cfg, interval, txn, message, script, wire);
      var retryDelay := cfg.firstDelay;
      var lastException: Option<Error> := None;
      while attempts < cfg.maxRetries
        invariant attempts <= cfg.maxRetries && Valid()
        invariant forall k | 0 <= k < attempts :: Retryable(expected, script[k].outcome)
        invariant lastException in {None, Some(Timeout), Some(IncompleteRead)}
        invariant attempts == cfg.maxRetries ==>
                    lastException.Some? && Ending(expected, script[attempts - 1].outcome) == Raised(lastException.value)
        invariant attempts < cfg.maxRetries ==> retryDelay == Engine.Backoff(cfg, attempts + 1)
        invariant slept == TotalBackoff(cfg, if attempts < cfg.maxRetries then attempts else attempts - 1)
        invariant now >= old(now) + slept
        invariant Traced(cfg, interval, txn, message, script[..attempts], old(wire), wire)
      {
        var a := script[attempts];
        attempts := attempts + 1;
        ghost var before := wire;
        Exchange(cfg, message, interval, txn, attempts, a);
        TraceGrows(cfg, interval, txn, message, script, attempts - 1, old(wire), before, wire);
        var ending := Judge(expected, a.outcome);
        if a.outcome.TimedOut? || a.outcome.CutShort? {
          lastException := Some(ending.error);
        } else if ending.Received? || Breaks(a.outcome) || attempts == cfg.maxRetries {
          return ending, attempts, slept;
        }
        if attempts < cfg.maxRetries {
          slept := slept + retryDelay;
          retryDelay := BackOff(cfg, attempts, retryDelay, a.lateBackoff);
        }
      }
      return Raised(if lastException == Some(Timeout) then Timeout else IncompleteRead), attempts, slept;
    }

    /**
      One transaction.  The result and the number of attempts are those of the specification;
      the backoff slept is the geometric sum over the attempts that were repeated; the trace
      gains exactly one transmission per attempt, all of the same message, properly spaced;
      the connection survives exactly the successful transactions.
    */
    method Fetch(cfg: Config, message: seq<byte>, expected: Option<Code>, interval: real, opens: bool, script: seq<Attempt>)
      returns (result: Result, attempts: nat, slept: real)
      requires Valid() && Engine.ValidConfig(cfg) && interval >= 0.0
      requires |script| >= cfg.maxRetries && forall k | 0 <= k < |script| :: Timely(script[k])
      modifies this
      ensures Valid() && transactionSequence == old(transactionSequence) + 1
      ensures !old(connected) && !opens ==>
                result == Raised(ConnectionFailed) && attempts == 0 && slept == 0.0 && wire == old(wire) && !connected
      ensures old(connected) || opens ==>
                && Concludes(cfg.maxRetries, expected, script, attempts, result)
                && slept == TotalBackoff(cfg, attempts - 1)
                && connected == result.Received?
                && Traced(cfg, interval, transactionSequence, message, script[..attempts], old(wire), wire)
      ensures now >= old(now) + slept
    {
      transactionSequence := transactionSequence + 1;
      if !connected && !opens {
        return Raised(ConnectionFailed), 0, 0.0;
      }
      connected := true;
      result, attempts, slept := Converse(cfg, message, expected, interval, transactionSequence, script);
      if result.Raised? {
        connected := false;
      }
    }
  }
}

/**
  The polling service: a loop that fetches and broadcasts while anybody is subscribed, with
  subscribers coming and going between any two of its suspension points.
*/
module Polling {
  import opened Basics

  // ---------------------------------------------------------------- who is subscribed

  /** The subscriber set and the event the loop waits on. */
  datatype Roster<Q(==)> = Roster(subscribers: set<Q>, awake: bool)

  function Subscribe<Q>(r: Roster<Q>, q: Q): Roster<Q> {
    var subscribers := r.subscribers + {q};
    Roster(subscribers, r.awake || |subscribers| == 1)
  }

  function Unsubscribe<Q>(r: Roster<Q>, q: Q): Roster<Q> {
    if q !in r.subscribers then r
    else
      var subscribers := r.subscribers - {q};
      Roster(subscribers, r.awake && subscribers != {})
  }

  predicate Consistent<Q>(r: Roster<Q>) {
    r.awake <==> r.subscribers != {}
  }

  /** Both operations keep the event in step with the set. */
  lemma RosterStaysConsistent<Q>(r: Roster<Q>, q: Q)
    requires Consistent(r)
    ensures Consistent(Subscribe(r, q)) && Subscribe(r, q).awake
    ensures Subscribe(r, q).subscribers == r.subscribers + {q} != {}
    ensures Consistent(Unsubscribe(r, q)) && Unsubscribe(r, q).subscribers == r.subscribers - {q}
  {
  }

  // ---------------------------------------------------------------- the service object

  class StreamQueue<Data> {
    var items: seq<Data>

    constructor ()
      ensures items == []
    {
      items := [];
    }

    /** The queue is unbounded: putting never waits. */
    method Put(data: Data)
      modifies this
      ensures items == old(items) + [data]
    {
      items := items + [data];
    }
  }

  class PollingService<Data> {
    var subscribers: set<StreamQueue<Data>>
    var hasSubscribers: bool

    ghost function State(): Roster<StreamQueue<Data>>
      reads this
    {
      Roster(subscribers, hasSubscribers)
    }

    constructor ()
      ensures State() == Roster({}, false) && Consistent(State())
    {
      subscribers := {};
      hasSubscribers := false;
    }

    method AddSubscriber(queue: StreamQueue<Data>)
      requires Consistent(State())
      modifies this
      ensures State() == Subscribe(old(State()), queue) && Consistent(State())
    {
      RosterStaysConsistent(State(), queue);
      subscribers := subscribers + {queue};
      if |subscribers| == 1 {
        hasSubscribers := true;
      }
    }

    method RemoveSubscriber(queue: StreamQueue<Data>)
      requires Consistent(State())
      modifies this
      ensures State() == Unsubscribe(old(State()), queue) && Consistent(State())
    {
      if queue in subscribers {
        subscribers := subscribers - {queue};
        if |subscribers| == 0 {
          hasSubscribers := false;
        }
      }
    }

    /** Every subscriber's queue gets the data once; nothing else changes. */
    method Broadcast(data: Data)
      modifies subscribers
      ensures forall q | q in subscribers :: q.items == old(q.items) + [data]
    {
      var todo := subscribers;
      while todo != {}
        invariant todo <= subscribers
        invariant forall q | q in todo :: q.items == old(q.items)
        invariant forall q | q in subscribers - todo :: q.items == old(q.items) + [data]
        decreases |todo|
      {
        var q :| q in todo;
        q.Put(data);
        todo := todo - {q};
      }
    }
  }

  // ---------------------------------------------------------------- the loop as a machine

  /** Where the loop is suspended; woken: the event was set while it was waiting. */
  datatype Phase = Waiting(woken: bool) | Fetching(start: real) | Sleeping(until: real) | Stopped

  datatype Event<Data> =
    | Joined(queue: nat)
    | Left(queue: nat)
    | Sent(data: Data)
    | Started(time: real)
    | Ended(interval: real)

  datatype State<Data> = State(
    now: real,
    roster: Roster<nat>,
    phase: Phase,
    queues: map<nat, seq<Data>>,
    history: seq<Event<Data>>)

  /** interval: what the provider returned, None if it failed. */
  datatype Action<Data> =
    | Tick(d: real)
    | Join(queue: nat)
    | Leave(queue: nat)
    | Wake
    | Fetched(data: Data, interval: Option<real>)
    | FetchFails
    | SleepOver
    | Stop

  function Init<Data>(): State<Data> {
    State(0.0, Roster({}, false), Waiting(false), map[], [])
  }

  predicate Enabled<Data>(s: State<Data>, a: Action<Data>) {
    match a
    case Tick(d) => d >= 0.0
    case Join(_) => true
    case Leave(_) => true
    case Wake => s.phase.Waiting? && s.phase.woken
    case Fetched(_, _) => s.phase.Fetching?
    case FetchFails => s.phase.Fetching?
    case SleepOver => s.phase.Sleeping? && s.now >= s.phase.until
    case Stop => true
  }

  function Contents<Data>(s: State<Data>, q: nat): seq<Data> {
    if q in s.queues then s.queues[q] else []
  }

  /** A fetch begins. */
  function Start<Data>(s: State<Data>): State<Data> {
    s.(phase := Fetching(s.now), history := s.history + [Started(s.now)])
  }

  /** fallback: the fixed interval, used after an error. */
  function Next<Data>(fallback: real, s: State<Data>, a: Action<Data>): State<Data>
    requires Enabled(s, a)
  {
    match a
    case Tick(d) => s.(now := s.now + d)
    case Join(q) =>
      var roster := Subscribe(s.roster, q);
      s.(roster := roster,
         phase := if s.phase.Waiting? && |roster.subscribers| == 1 then Waiting(true) else s.phase,
         history := s.history + [Joined(q)])
    case Leave(q) => s.(roster := Unsubscribe(s.roster, q), history := s.history + [Left(q)])
    case Wake => Start(s)
    case Fetched(data, interval) =>
      var until := if interval.Some? then s.now + Max(0.0, interval.value - (s.now - s.phase.start)) else s.now + fallback;
      s.(queues := map q | q in s.queues.Keys + s.roster.subscribers ::
                     Contents(s, q) + (if q in s.roster.subscribers then [data] else []),
         phase := Sleeping(until),
         history := s.history + [Sent(data), Ended(if interval.Some? then interval.value else fallback)])
    case FetchFails => s.(phase := Sleeping(s.now + fallback), history := s.history + [Ended(fallback)])
    case SleepOver => if s.roster.awake then Start(s) else s.(phase := Waiting(false))
    case Stop => s.(phase := Stopped)
  }

  ghost predicate IsRun<Data>(fallback: real, states: seq<State<Data>>, actions: seq<Action<Data>>) {
    && |states| == |actions| + 1 && states[0] == Init()
    && forall i | 0 <= i < |actions| ::
         Enabled(states[i], actions[i]) && states[i + 1] == Next(fallback, states[i], actions[i])
  }

  // ---------------------------------------------------------------- what the history promises

  function MembersAfter<Data>(members: set<nat>, e: Event<Data>): set<nat> {
    match e
    case Joined(queue) => members + {queue}
    case Left(queue) => members - {queue}
    case _ => members
  }

  /** Who is subscribed. */
  function Members<Data>(history: seq<Event<Data>>): set<nat> {
    if |history| == 0 then {}
    else MembersAfter(Members(history[..|history| - 1]), history[|history| - 1])
  }

  /** What queue q must have received. */
  function Due<Data>(history: seq<Event<Data>>, q: nat): seq<Data> {
    if |history| == 0 then []
    else
      var e, before := history[|history| - 1], history[..|history| - 1];
      Due(before, q) + (if e.Sent? && q in Members(before) then [e.data] else [])
  }

  /** All data broadcast. */
  function Broadcasts<Data>(history: seq<Event<Data>>): seq<Data> {
    if |history| == 0 then []
    else
      var e := history[|history| - 1];
      Broadcasts(history[..|history| - 1]) + (if e.Sent? then [e.data] else [])
  }

  /** Polls started since the last subscriber left; 0 while there is one. */
  function IdlePolls<Data>(history: seq<Event<Data>>): nat {
    if |history| == 0 || Members(history) != {} then 0
    else IdlePolls(history[..|history| - 1]) + (if history[|history| - 1].Started? then 1 else 0)
  }

  /** When the latest poll started. */
  function LastStart<Data>(history: seq<Event<Data>>): real {
    if |history| == 0 then 0.0
    else
      var e := history[|history| - 1];
      if e.Started? then e.time else LastStart(history[..|history| - 1])
  }

  /** By time t the intervals of all polls that have ended are over, counted from their starts. */
  ghost predicate IntervalsOver<Data>(history: seq<Event<Data>>, t: real) {
    forall k | 0 <= k < |history| && history[k].Ended? :: LastStart(history[..k]) + history[k].interval <= t
  }

  /** No poll starts before the intervals of all earlier ones are over. */
  ghost predicate Spaced<Data>(history: seq<Event<Data>>) {
    forall j | 0 <= j < |history| && history[j].Started? :: IntervalsOver(history[..j], history[j].time)
  }

  // ---------------------------------------------------------------- the invariant

  /** The event follows the subscribers, and a loop without subscribers goes idle. */
  ghost predicate RosterSafe<Data>(s: State<Data>) {
    && Consistent(s.roster) && Members(s.history) == s.roster.subscribers
    && (s.phase == Waiting(false) ==> !s.roster.awake)
    && IdlePolls(s.history) + (if s.phase == Waiting(true) && s.roster.subscribers == {} then 1 else 0) <= 1
  }

  ghost predicate Delivered<Data>(s: State<Data>) {
    forall q :: Contents(s, q) == Due(s.history, q)
  }

  ghost predicate TimerSafe<Data>(s: State<Data>) {
    && Spaced(s.history)
    && match s.phase
       case Waiting(_) => IntervalsOver(s.history, s.now)
       case Fetching(start) => start == LastStart(s.history) <= s.now && IntervalsOver(s.history, start)
       case Sleeping(until) => IntervalsOver(s.history, Max(s.now, until))
       case Stopped => true
  }

  /** Subscribers after one more event. */
  lemma ExtendMembers<Data>(history: seq<Event<Data>>, e: Event<Data>)
    ensures Members(history + [e]) == MembersAfter(Members(history), e)
    ensures IdlePolls(history + [e]) ==
              if Members(history + [e]) != {} then 0 else IdlePolls(history) + (if e.Started? then 1 else 0)
    ensures Members(history) != {} ==> IdlePolls(history) == 0
  {
  }

  /** Deliveries after one more event. */
  lemma ExtendDue<Data>(history: seq<Event<Data>>, e: Event<Data>, q: nat)
    ensures Due(history + [e], q) == Due(history, q) + (if e.Sent? && q in Members(history) then [e.data] else [])
    ensures Broadcasts(history + [e]) == Broadcasts(history) + (if e.Sent? then [e.data] else [])
  {
  }

  /** Events other than coming and going leave the subscribers as they are. */
  lemma OtherEventKeepsRoster<Data>(s: State<Data>, e: Event<Data>, phase: Phase)
    requires RosterSafe(s) && !e.Joined? && !e.Left?
    requires !phase.Waiting?
    requires e.Started? && s.roster.subscribers == {} ==> s.phase == Waiting(true)
    ensures RosterSafe(s.(history := s.history + [e], phase := phase))
  {
  }

  lemma JoinKeepsRoster<Data>(fallback: real, s: State<Data>, q: nat)
    requires RosterSafe(s)
    ensures RosterSafe(Next(fallback, s, Join(q)))
  {
  }

  lemma LeaveKeepsRoster<Data>(fallback: real, s: State<Data>, q: nat)
    requires RosterSafe(s)
    ensures RosterSafe(Next(fallback, s, Leave(q)))
  {
    hide Members, IdlePolls, Unsubscribe;
    RosterStaysConsistent(s.roster, q);
    ExtendMembers(s.history, Left(q));
  }

  lemma RosterStep<Data>(fallback: real, s: State<Data>, a: Action<Data>)
    requires RosterSafe(s) && Enabled(s, a)
    ensures RosterSafe(Next(fallback, s, a))
  {
    hide Members, IdlePolls;
    var s' := Next(fallback, s, a);
    match a {
      case Join(q) => JoinKeepsRoster(fallback, s, q);
      case Leave(q) => LeaveKeepsRoster(fallback, s, q);
      case Fetched(data, interval) =>
        var sent := s.(history := s.history + [Sent(data)]);
        OtherEventKeepsRoster(s, Sent(data), s.phase);
        var ended: Event<Data> := Ended(if interval.Some? then interval.value else fallback);
        OtherEventKeepsRoster(sent, ended, s'.phase);
        assert s'.history == sent.history + [ended];
      case FetchFails => OtherEventKeepsRoster(s, Ended(fallback), s'.phase);
      case Wake => OtherEventKeepsRoster(s, Started(s.now), s'.phase);
      case SleepOver =>
        if s.roster.awake {
          OtherEventKeepsRoster(s, Started(s.now), s'.phase);
        }
      case _ =>
    }
  }

  lemma DeliveryStep<Data>(fallback: real, s: State<Data>, a: Action<Data>)
    requires RosterSafe(s) && Delivered(s) && Enabled(s, a)
    ensures Delivered(Next(fallback, s, a))
  {
    var s' := Next(fallback, s, a);
    forall q
      ensures Contents(s', q) == Due(s'.history, q)
    {
      DeliveredTo(fallback, s, a, q);
    }
  }

  lemma DeliveredTo<Data>(fallback: real, s: State<Data>, a: Action<Data>, q: nat)
    requires RosterSafe(s) && Contents(s, q) == Due(s.history, q) && Enabled(s, a)
    ensures Contents(Next(fallback, s, a), q) == Due(Next(fallback, s, a).history, q)
  {
    hide Due, Members, IdlePolls, Broadcasts, Subscribe, Unsubscribe;
    var s' := Next(fallback, s, a);
    if a.Fetched? {
      var sent, last := s.history + [Sent(a.data)], s'.history[|s.history| + 1];
      ExtendDue(s.history, Sent(a.data), q);
      ExtendDue(sent, last, q);
      assert s'.history == sent + [last];
    } else if |s'.history| > |s.history| {
      ExtendDue(s.history, s'.history[|s.history|], q);
    }
  }

  /** The functions of the history after one more event. */
  lemma Extend<Data>(history: seq<Event<Data>>, e: Event<Data>)
    ensures LastStart(history + [e]) == if e.Started? then e.time else LastStart(history)
    ensures forall t :: IntervalsOver(history + [e], t) <==>
                          IntervalsOver(history, t) && (e.Ended? ==> LastStart(history) + e.interval <= t)
    ensures Spaced(history + [e]) <==> Spaced(history) && (e.Started? ==> IntervalsOver(history, e.time))
  {
    var n, longer := |history|, history + [e];
    assert longer[..n] == history;
    assert forall k | 0 <= k < n :: longer[..k] == history[..k] && longer[k] == history[k];
    assert longer[n] == e;
  }

  lemma OverLater<Data>(history: seq<Event<Data>>, t: real, later: real)
    requires IntervalsOver(history, t) && t <= later
    ensures IntervalsOver(history, later)
  {
  }

  lemma TimerStep<Data>(fallback: real, s: State<Data>, a: Action<Data>)
    requires TimerSafe(s) && Enabled(s, a)
    ensures TimerSafe(Next(fallback, s, a))
  {
    hide IntervalsOver, Spaced, LastStart;
    var s' := Next(fallback, s, a);
    match a {
      case Tick(d) =>
        if s.phase.Waiting? {
          OverLater(s.history, s.now, s'.now);
        } else if s.phase.Sleeping? {
          OverLater(s.history, Max(s.now, s.phase.until), Max(s'.now, s.phase.until));
        }
      case Join(q) => Extend(s.history, Joined(q));
      case Leave(q) => Extend(s.history, Left(q));
      case Wake => Extend(s.history, Started(s.now));
      case SleepOver => Extend(s.history, Started(s.now));
      case Fetched(data, interval) =>
        var ended: Event<Data> := Ended(if interval.Some? then interval.value else fallback);
        Extend(s.history, Sent(data));
        Extend(s.history + [Sent(data)], ended);
        assert s'.history == s.history + [Sent(data)] + [ended];
        OverLater(s.history, s.phase.start, Max(s'.now, s'.phase.until));
      case FetchFails =>
        Extend(s.history, Ended(fallback));
        OverLater(s.history, s.phase.start, Max(s'.now, s'.phase.until));
      case Stop =>
    }
  }

  /**
    In every run: the event is set exactly while somebody is subscribed; with nobody subscribed
    at most one further poll starts; every queue holds exactly what it is due; and polls keep
    the interval in force when they ended, counted from their starts.
  */
  lemma {:induction false} PollingInRun<Data>(fallback: real, states: seq<State<Data>>, actions: seq<Action<Data>>, i: nat)
    requires IsRun(fallback, states, actions) && i < |states|
    ensures RosterSafe(states[i]) && Delivered(states[i]) && TimerSafe(states[i])
    ensures IdlePolls(states[i].history) <= 1 && Spaced(states[i].history)
  {
    if i > 0 {
      PollingInRun(fallback, states, actions, i - 1);
      RosterStep(fallback, states[i - 1], actions[i - 1]);
      DeliveryStep(fallback, states[i - 1], actions[i - 1]);
      TimerStep(fallback, states[i - 1], actions[i - 1]);
    }
  }

  // ---------------------------------------------------------------- what the steps do

  /** The data fetched successfully, in order. */
  function FetchedData<Data>(actions: seq<Action<Data>>): seq<Data> {
    if |actions| == 0 then []
    else
      var a, before := actions[|actions| - 1], FetchedData(actions[..|actions| - 1]);
      match a
      case Fetched(data, _) => before + [data]
      case _ => before
  }

  /** What a step adds to the history, by what was done and whether a poll has begun. */
  function Told<Data>(fallback: real, s: State<Data>, a: Action<Data>, s': State<Data>): seq<Event<Data>> {
    match a
    case Join(q) => [Joined(q)]
    case Leave(q) => [Left(q)]
    case Fetched(data, Some(interval)) => [Sent(data), Ended(interval)]
    case Fetched(data, None) => [Sent(data), Ended(fallback)]
    case FetchFails => [Ended(fallback)]
    case _ => if s'.phase.Fetching? && !s.phase.Fetching? then [Started(s.now)] else []
  }

  /** The history is nothing but the record of what was done. */
  lemma HistoryTells<Data>(fallback: real, s: State<Data>, a: Action<Data>)
    requires Enabled(s, a)
    ensures var s' := Next(fallback, s, a); s'.history == s.history + Told(fallback, s, a, s')
  {
  }

  /** In every run everything fetched successfully is broadcast, once each and in order, and nothing else. */
  lemma {:induction false} FetchedIsBroadcast<Data>(fallback: real, states: seq<State<Data>>, actions: seq<Action<Data>>, i: nat)
    requires IsRun(fallback, states, actions) && i < |states|
    ensures Broadcasts(states[i].history) == FetchedData(actions[..i])
  {
    hide Broadcasts, Next, Enabled;
    if i == 0 {
      Blank<Data>([], 0);
    } else {
      FetchedIsBroadcast(fallback, states, actions, i - 1);
      HistoryTells(fallback, states[i - 1], actions[i - 1]);
      assert actions[..i][..i - 1] == actions[..i - 1];
      BroadcastsTold(fallback, states[i - 1], actions[i - 1], states[i]);
    }
  }

  lemma BroadcastsTold<Data>(fallback: real, s: State<Data>, a: Action<Data>, s': State<Data>)
    requires s'.history == s.history + Told(fallback, s, a, s')
    ensures Broadcasts(s'.history) == Broadcasts(s.history) + (match a case Fetched(data, _) => [data] case _ => [])
  {
    hide Broadcasts, Due;
    var told := Told(fallback, s, a, s');
    if |told| == 1 {
      ExtendDue(s.history, told[0], 0);
    } else if |told| == 2 {
      ExtendDue(s.history, told[0], 0);
      ExtendDue(s.history + [told[0]], told[1], 0);
      assert s.history + told == s.history + [told[0]] + [told[1]];
    } else {
      assert s.history + told == s.history;
    }
  }

  /** A successful fetch puts its data at the end of every subscriber's queue; nothing else fills a queue. */
  lemma FetchReachesSubscribers<Data>(fallback: real, s: State<Data>, a: Action<Data>, q: nat)
    requires Enabled(s, a)
    ensures Contents(Next(fallback, s, a), q) == Contents(s, q) + match a
              case Fetched(data, _) => if q in s.roster.subscribers then [data] else []
              case _ => []
  {
  }

  /**
    In every run, after a poll the loop sleeps exactly until its interval, counted from the poll's
    start, is over, or not at all if that is past; after a failure exactly the fixed interval.
  */
  lemma SleepsExactly<Data>(fallback: real, states: seq<State<Data>>, actions: seq<Action<Data>>, i: nat)
    requires IsRun(fallback, states, actions) && i < |actions|
    ensures match actions[i]
            case Fetched(_, Some(interval)) =>
              var over := LastStart(states[i].history) + interval;
              states[i + 1].phase == Sleeping(if over > states[i].now then over else states[i].now)
            case Fetched(_, None) => states[i + 1].phase == Sleeping(states[i].now + fallback)
            case FetchFails => states[i + 1].phase == Sleeping(states[i].now + fallback)
            case _ => true
  {
    hide LastStart, IntervalsOver, Spaced, RosterSafe, Delivered;
    PollingInRun(fallback, states, actions, i);
  }

  /**
    The loop never stalls: in every reachable state with somebody subscribed, unless it is stopped
    or already fetching, the next poll starts at once or as soon as its sleep is over.
  */
  lemma LoopNeverStalls<Data>(fallback: real, states: seq<State<Data>>, actions: seq<Action<Data>>, i: nat)
    requires IsRun(fallback, states, actions) && i < |states| && states[i].roster.subscribers != {}
    ensures match states[i].phase
            case Waiting(_) =>
              Enabled(states[i], Wake) && Next(fallback, states[i], Wake).phase == Fetching(states[i].now)
            case Sleeping(until) =>
              var wake := states[i].(now := if until > states[i].now then until else states[i].now);
              Enabled(wake, SleepOver) && Next(fallback, wake, SleepOver).phase == Fetching(wake.now)
            case _ => true
  {
    hide Members, IdlePolls, Delivered, TimerSafe;
    PollingInRun(fallback, states, actions, i);
  }

  // ---------------------------------------------------------------- polls for nobody

  /** The step starts a poll although nobody is subscribed. */
  predicate StartsIdlePoll<Data>(fallback: real, s: State<Data>, a: Action<Data>)
    requires Enabled(s, a)
  {
    var s' := Next(fallback, s, a);
    s'.roster.subscribers == {} && s'.phase.Fetching? && !s.phase.Fetching?
  }

  /**
    The last subscriber leaves after the loop was woken and before it has resumed.  A caller of
    unsubscribe can see this beforehand.
  */
  predicate HastyLeave<Data>(s: State<Data>, a: Action<Data>) {
    a.Leave? && s.phase == Waiting(true) && s.roster.subscribers == {a.queue}
  }

  /** What ends the wait of a woken loop without subscribers. */
  predicate Interrupts<Data>(a: Action<Data>) {
    a.Join? || a.Wake? || a.Stop?
  }

  /** A hasty leave at step j is still waiting to take effect at step i. */
  ghost predicate PendingSince<Data>(states: seq<State<Data>>, actions: seq<Action<Data>>, j: nat, i: nat)
    requires i <= |actions| < |states|
  {
    j < i && HastyLeave(states[j], actions[j]) && forall k | j < k < i :: !Interrupts(actions[k])
  }

  ghost predicate Pending<Data>(states: seq<State<Data>>, actions: seq<Action<Data>>, i: nat)
    requires i <= |actions| < |states|
  {
    exists j: nat :: PendingSince(states, actions, j, i)
  }

  /** The loop is woken with nobody subscribed. */
  predicate WokenForNobody<Data>(s: State<Data>) {
    s.roster.subscribers == {} && s.phase == Waiting(true)
  }

  /** One step into and out of being woken for nobody. */
  lemma WokenStep<Data>(fallback: real, s: State<Data>, a: Action<Data>)
    requires RosterSafe(s) && Enabled(s, a)
    ensures WokenForNobody(Next(fallback, s, a)) <==> HastyLeave(s, a) || (WokenForNobody(s) && !Interrupts(a))
  {
    hide Members, IdlePolls;
    if a.Join? || a.Leave? {
      RosterStaysConsistent(s.roster, a.queue);
    }
  }

  lemma PendingStep<Data>(states: seq<State<Data>>, actions: seq<Action<Data>>, i: nat, next: nat)
    requires i < |actions| < |states| && next == i + 1
    ensures Pending(states, actions, next)
       <==> HastyLeave(states[i], actions[i]) || (Pending(states, actions, i) && !Interrupts(actions[i]))
  {
    hide HastyLeave, Interrupts;
    if Pending(states, actions, next) {
      var j: nat :| PendingSince(states, actions, j, next);
      assert j < i ==> PendingSince(states, actions, j, i);
    }
    if HastyLeave(states[i], actions[i]) {
      assert PendingSince(states, actions, i, next);
    } else if Pending(states, actions, i) && !Interrupts(actions[i]) {
      var j: nat :| PendingSince(states, actions, j, i);
      assert PendingSince(states, actions, j, next);
    }
  }

  lemma {:induction false} WokenIffPending<Data>(fallback: real, states: seq<State<Data>>, actions: seq<Action<Data>>, i: nat)
    requires IsRun(fallback, states, actions) && i < |states|
    ensures WokenForNobody(states[i]) <==> Pending(states, actions, i)
  {
    if i > 0 {
      WokenIffPending(fallback, states, actions, i - 1);
      PollingInRun(fallback, states, actions, i - 1);
      WokenStep(fallback, states[i - 1], actions[i - 1]);
      PendingStep(states, actions, i - 1, i);
    }
  }

  /**
    Exactly when a poll starts with nobody subscribed: the loop resumes after a hasty leave that
    no later subscription has made up for.
  */
  lemma IdlePollIff<Data>(fallback: real, states: seq<State<Data>>, actions: seq<Action<Data>>, i: nat)
    requires IsRun(fallback, states, actions) && i < |actions|
    ensures StartsIdlePoll(fallback, states[i], actions[i]) <==> actions[i].Wake? && Pending(states, actions, i)
  {
    hide Members, IdlePolls, Pending;
    PollingInRun(fallback, states, actions, i);
    WokenIffPending(fallback, states, actions, i);
  }

  /**
    The documented promise, and exactly which runs keep it: no poll starts with nobody
    subscribed if and only if no hasty leave is still pending when the loop resumes.
  */
  lemma NoIdlePollIff<Data>(fallback: real, states: seq<State<Data>>, actions: seq<Action<Data>>)
    requires IsRun(fallback, states, actions)
    ensures (forall i | 0 <= i < |actions| :: !StartsIdlePoll(fallback, states[i], actions[i]))
       <==> forall i: nat, j: nat | i < |actions| && actions[i].Wake? :: !PendingSince(states, actions, j, i)
  {
    hide StartsIdlePoll, PendingSince;
    forall i | 0 <= i < |actions|
      ensures StartsIdlePoll(fallback, states[i], actions[i]) <==> actions[i].Wake? && Pending(states, actions, i)
    {
      IdlePollIff(fallback, states, actions, i);
    }
  }

  /** A run without hasty leaves never polls for nobody, whatever else happens in it. */
  lemma CarefulLeavesNeverIdle<Data>(fallback: real, states: seq<State<Data>>, actions: seq<Action<Data>>, i: nat)
    requires IsRun(fallback, states, actions) && i < |actions|
    requires forall j | 0 <= j < |actions| :: !HastyLeave(states[j], actions[j])
    ensures !StartsIdlePoll(fallback, states[i], actions[i])
  {
    hide HastyLeave, StartsIdlePoll;
    IdlePollIff(fallback, states, actions, i);
  }

  /** After a hasty leave the very next action can be such a poll; after any other leave it cannot. */
  lemma LeaveIsHastyIff<Data>(fallback: real, states: seq<State<Data>>, actions: seq<Action<Data>>, i: nat, q: nat)
    requires IsRun(fallback, states, actions) && i < |states| && states[i].roster.subscribers == {q}
    ensures var left := Next(fallback, states[i], Leave(q));
            HastyLeave(states[i], Leave(q)) <==> Enabled(left, Wake) && StartsIdlePoll(fallback, left, Wake)
  {
    hide Members, IdlePolls;
    PollingInRun(fallback, states, actions, i);
    RosterStaysConsistent(states[i].roster, q);
  }

  /** States of a run in which the only subscriber leaves before the woken loop has resumed. */
  function HastyStates<Data>(q: nat): seq<State<Data>> {
    [Init(),
     State(0.0, Roster({q}, true), Waiting(true), map[], [Joined(q)]),
     State(0.0, Roster({}, false), Waiting(true), map[], [Joined(q), Left(q)]),
     State(0.0, Roster({}, false), Fetching(0.0), map[], [Joined(q), Left(q), Started(0.0)])]
  }

  lemma HastyRun<Data>(fallback: real, q: nat)
    ensures IsRun(fallback, HastyStates<Data>(q), [Join(q), Leave(q), Wake])
  {
    var states := HastyStates<Data>(q);
    assert {} + {q} == {q} && {q} - {q} == {};
    assert Next(fallback, states[0], Join(q)) == states[1];
    assert Next(fallback, states[1], Leave(q)) == states[2];
    assert Next(fallback, states[2], Wake) == states[3];
  }

  /** The promise is broken in this run: subscribe, unsubscribe, and only then does the loop resume. */
  lemma HastyLeavePolls<Data>(fallback: real, q: nat)
    ensures var states, actions: seq<Action<Data>> := HastyStates<Data>(q), [Join(q), Leave(q), Wake];
            && IsRun(fallback, states, actions)
            && HastyLeave(states[1], actions[1]) && StartsIdlePoll(fallback, states[2], actions[2])
            && IdlePolls(states[3].history) == 1
  {
    hide Next, Members, IdlePolls, Enabled;
    HastyRun<Data>(fallback, q);
    var states := HastyStates<Data>(q);
    HastyIdles(states[0].history, states[1].history, states[2].history, states[3].history, q);
  }

  lemma HastyIdles<Data>(h0: seq<Event<Data>>, h1: seq<Event<Data>>, h2: seq<Event<Data>>, h3: seq<Event<Data>>, q: nat)
    requires h0 == [] && h1 == h0 + [Joined(q)] && h2 == h1 + [Left(q)] && h3 == h2 + [Started(0.0)]
    ensures IdlePolls(h3) == 1
  {
    hide Members, IdlePolls;
    Blank(h0, q);
    ExtendMembers(h0, Joined(q));
    ExtendMembers(h1, Left(q));
    ExtendMembers(h2, Started(0.0));
  }

  // ---------------------------------------------------------------- one subscription

  /** A subscribed queue that does not leave receives every broadcast, subscribing again or not. */
  lemma {:induction false} MemberStretch<Data>(history: seq<Event<Data>>, q: nat, a: nat, b: nat)
    requires a <= b <= |history| && q in Members(history[..a])
    requires forall k | a <= k < b :: history[k] != Left(q)
    ensures q in Members(history[..b])
    ensures Due(history[..b], q) == Due(history[..a], q) + Broadcasts(history[a..b])
  {
    hide Due, Members, Broadcasts, IdlePolls;
    if a < b {
      MemberStretch(history, q, a, b - 1);
      ExtendBy(history, q, 0, b);
      ExtendBy(history, q, a, b);
    } else {
      Blank(history[a..b], q);
    }
  }

  /** A queue that is not subscribed receives nothing until it joins. */
  lemma {:induction false} OutsiderStretch<Data>(history: seq<Event<Data>>, q: nat, a: nat, b: nat)
    requires a <= b <= |history| && q !in Members(history[..a])
    requires forall k | a <= k < b :: history[k] != Joined(q)
    ensures q !in Members(history[..b])
    ensures Due(history[..b], q) == Due(history[..a], q)
  {
    hide Due, Members, Broadcasts, IdlePolls;
    if a < b {
      OutsiderStretch(history, q, a, b - 1);
      ExtendBy(history, q, 0, b);
    }
  }

  /** One more event at the end of a stretch. */
  lemma ExtendBy<Data>(history: seq<Event<Data>>, q: nat, a: nat, b: nat)
    requires a < b <= |history|
    ensures var e, before, longer := history[b - 1], history[a..b - 1], history[a..b];
            && Members(longer) == MembersAfter(Members(before), e)
            && Due(longer, q) == Due(before, q) + (if e.Sent? && q in Members(before) then [e.data] else [])
            && Broadcasts(longer) == Broadcasts(before) + (if e.Sent? then [e.data] else [])
  {
    hide Due, Members, Broadcasts, IdlePolls;
    assert history[a..b] == history[a..b - 1] + [history[b - 1]];
    ExtendMembers(history[a..b - 1], history[b - 1]);
    ExtendDue(history[a..b - 1], history[b - 1], q);
  }

  lemma Blank<Data>(history: seq<Event<Data>>, q: nat)
    requires history == []
    ensures Members(history) == {} && Due(history, q) == [] && Broadcasts(history) == []
  {
  }

  /**
    A queue that joins at position a receives from there exactly the broadcasts made until it
    leaves, once each and in order: at any position b up to which it has not left, however often
    it subscribes again meanwhile.
  */
  lemma SubscriptionSegment<Data>(history: seq<Event<Data>>, q: nat, a: nat, b: nat)
    requires a < b <= |history| && history[a] == Joined(q)
    requires forall k | a < k < b :: history[k] != Left(q)
    requires q !in Members(history[..a])
    ensures Due(history[..b], q) == Due(history[..a], q) + Broadcasts(history[a..b])
  {
    hide Due, Members, Broadcasts, IdlePolls;
    ExtendBy(history, q, 0, a + 1);
    MemberStretch(history, q, a + 1, b);
    FirstIsNoBroadcast(history, q, a, b);
  }

  lemma {:induction false} FirstIsNoBroadcast<Data>(history: seq<Event<Data>>, q: nat, a: nat, b: nat)
    requires a < b <= |history| && !history[a].Sent?
    ensures Broadcasts(history[a..b]) == Broadcasts(history[a + 1..b])
  {
    hide Broadcasts;
    ExtendBy(history, q, a, b);
    if b > a + 1 {
      FirstIsNoBroadcast(history, q, a, b - 1);
      ExtendBy(history, q, a + 1, b);
    } else {
      Blank(history[a..a], q);
      Blank(history[b..b], q);
    }
  }
}

/**
  The optional median layer over whole runs: exactly which flipped readings it keeps from the
  sign guard, and what the guard then sees and stores.
*/
module MedianLayer {
  import opened Basics
  import opened Readings
  import opened Quantizer
  import opened Sanitizer
  import opened GlitchRemoval

  /** A reading as the scale meant it, and whether its sign was flipped on the way. */
  datatype Reading = Reading(value: real, ts: real, flipped: bool)

  /** The readings of a run, markers left out. */
  function ReadingsOf(run: seq<Sample>): seq<Reading> {
    if |run| == 0 then []
    else
      var s, before := run[|run| - 1], ReadingsOf(run[..|run| - 1]);
      match Parse(s.raw)
      case None => before
      case Some(v) => before + [Reading(v, s.ts, s.flipped)]
  }

  function Heard(r: Reading): real {
    if r.flipped then -r.value else r.value
  }

  predicate HasSign(x: real, positive: bool) {
    if positive then x > 0.0 else x < 0.0
  }

  /** Reading k came soon enough after its predecessor. */
  predicate Follows(cfg: Config, rs: seq<Reading>, k: nat)
    requires 0 < k < |rs|
  {
    rs[k].ts - rs[k - 1].ts <= cfg.staleness
  }

  /** Up to three last readings. */
  datatype Window =
    | Vacant
    | One(last: Reading)
    | Two(previous: Reading, last: Reading)
    | Three(first: Reading, previous: Reading, last: Reading)

  /** The last readings with no stale gap between them. */
  function Recent(cfg: Config, rs: seq<Reading>): (w: Window) {
    var n := |rs|;
    if n == 0 then Vacant
    else if n == 1 || !Follows(cfg, rs, n - 1) then One(rs[n - 1])
    else if n == 2 || !Follows(cfg, rs, n - 2) then Two(rs[n - 2], rs[n - 1])
    else Three(rs[n - 3], rs[n - 2], rs[n - 1])
  }

  /** The middle of three received readings, or the last of fewer. */
  function Passed(w: Window): real
    requires !w.Vacant?
  {
    if w.Three? then Middle(Heard(w.first), Heard(w.previous), Heard(w.last)) else Heard(w.last)
  }

  /** The last reading has two untouched recent ones before it. */
  predicate Protected(w: Window) {
    w.Three? && !w.first.flipped && !w.previous.flipped
  }

  /** Every flipped reading was protected when it arrived: at most one in any window. */
  predicate FlipsIsolated(cfg: Config, rs: seq<Reading>) {
    |rs| == 0
    || (FlipsIsolated(cfg, rs[..|rs| - 1]) && (rs[|rs| - 1].flipped ==> Protected(Recent(cfg, rs))))
  }

  predicate AllSigned(rs: seq<Reading>, positive: bool) {
    forall i | 0 <= i < |rs| :: HasSign(rs[i].value, positive)
  }

  predicate WindowSigned(w: Window, positive: bool) {
    match w
    case Vacant => true
    case One(a) => HasSign(a.value, positive)
    case Two(a, b) => HasSign(a.value, positive) && HasSign(b.value, positive)
    case Three(a, b, c) => HasSign(a.value, positive) && HasSign(b.value, positive) && HasSign(c.value, positive)
  }

  /** No two of three received readings are flipped. */
  predicate OneFlipAtMost(w: Window) {
    w.Three? ==>
      !(w.first.flipped && w.previous.flipped) && !(w.previous.flipped && w.last.flipped) && !(w.first.flipped && w.last.flipped)
  }

  /** A window passes the sign on if its last reading is untouched or protected. */
  lemma PassedSign(w: Window, positive: bool)
    requires !w.Vacant? && WindowSigned(w, positive)
    requires w.Three? ==> !(w.first.flipped && w.previous.flipped)
    ensures HasSign(Passed(w), positive) <==> (w.last.flipped ==> Protected(w))
  {
  }

  /** All true readings of the window lie between the bounds. */
  predicate Spans(w: Window, low: real, high: real) {
    match w
    case Vacant => true
    case One(a) => low <= a.value <= high
    case Two(a, b) => low <= a.value <= high && low <= b.value <= high
    case Three(a, b, c) => low <= a.value <= high && low <= b.value <= high && low <= c.value <= high
  }

  lemma PassedValue(w: Window, positive: bool, low: real, high: real)
    requires !w.Vacant? && WindowSigned(w, positive) && Spans(w, low, high)
    requires OneFlipAtMost(w) && (w.last.flipped ==> Protected(w))
    ensures low <= Passed(w) <= high
  {
  }

  /** The readings of a window are among those of the run, flips in it isolated. */
  lemma RecentIsolated(cfg: Config, rs: seq<Reading>, positive: bool)
    requires |rs| > 0 && AllSigned(rs, positive) && FlipsIsolated(cfg, rs[..|rs| - 1])
    ensures var w := Recent(cfg, rs);
            && !w.Vacant? && w.last == rs[|rs| - 1] && WindowSigned(w, positive)
            && (w.Three? ==> !(w.first.flipped && w.previous.flipped))
  {
    var prefix := rs[..|rs| - 1];
    if |prefix| > 0 {
      assert prefix[|prefix| - 1].flipped ==> Protected(Recent(cfg, prefix));
    }
  }

  /** One more reading passes with its sign exactly if it is untouched or protected. */
  lemma PassedStep(cfg: Config, rs: seq<Reading>, positive: bool)
    requires |rs| > 0 && AllSigned(rs, positive) && FlipsIsolated(cfg, rs[..|rs| - 1])
    ensures !Recent(cfg, rs).Vacant?
    ensures HasSign(Passed(Recent(cfg, rs)), positive) <==> (rs[|rs| - 1].flipped ==> Protected(Recent(cfg, rs)))
  {
    hide Recent, Passed, Protected, HasSign, WindowSigned;
    RecentIsolated(cfg, rs, positive);
    PassedSign(Recent(cfg, rs), positive);
  }

  /** What passes lies between the smallest and the largest true reading of its window. */
  lemma PassedBetween(cfg: Config, rs: seq<Reading>, positive: bool, low: real, high: real)
    requires |rs| > 0 && AllSigned(rs, positive) && FlipsIsolated(cfg, rs)
    requires Spans(Recent(cfg, rs), low, high)
    ensures !Recent(cfg, rs).Vacant? && low <= Passed(Recent(cfg, rs)) <= high
  {
    hide Recent, Passed, HasSign, WindowSigned, Spans;
    RecentIsolated(cfg, rs, positive);
    PassedValue(Recent(cfg, rs), positive, low, high);
  }

  // ---------------------------------------------------------------- the channel's window

  function HeardAll(w: Window): seq<real> {
    match w
    case Vacant => []
    case One(a) => [Heard(a)]
    case Two(a, b) => [Heard(a), Heard(b)]
    case Three(a, b, c) => [Heard(a), Heard(b), Heard(c)]
  }

  /** The window after one more reading. */
  function Shift(w: Window, r: Reading): (w': Window)
    ensures !w'.Vacant?
  {
    match w
    case Vacant => One(r)
    case One(a) => Two(a, r)
    case Two(a, b) => Three(a, b, r)
    case Three(_, b, c) => Three(b, c, r)
  }

  /** The reading the guard looks at when the last sample of the run arrives. */
  function GuardInput(cfg: Config, run: seq<Sample>): real
    requires |run| > 0 && Parse(Received(run[|run| - 1]).raw).Some?
  {
    var last := Received(run[|run| - 1]);
    Smoothed(cfg, StateAfter(cfg, ReceivedRun(run[..|run| - 1])), Parse(last.raw).value, last.ts)
  }

  /** The guard's input has the true sign at every reading of the run. */
  predicate InputsSigned(cfg: Config, run: seq<Sample>, positive: bool) {
    |run| == 0
    || (var last := Received(run[|run| - 1]);
        && InputsSigned(cfg, run[..|run| - 1], positive)
        && (Parse(last.raw).Some? ==> HasSign(GuardInput(cfg, run), positive)))
  }

  /** What a sample of the run looks like on arrival. */
  lemma ReceivedParses(s: Sample, positive: bool)
    requires SampleSigned(s, positive)
    ensures Received(s).ts == s.ts
    ensures match Parse(s.raw)
            case None => Parse(Received(s).raw) == None
            case Some(v) => Parse(Received(s).raw) == Some(Heard(Reading(v, s.ts, s.flipped))) && HasSign(v, positive)
  {
    hide Parse;
    if s.flipped && Signed(s.raw) {
      FlipSignNegates(s.raw);
    }
  }

  /** How the window of recent readings grows. */
  lemma NextRecent(cfg: Config, rs: seq<Reading>, r: Reading)
    ensures Recent(cfg, rs + [r])
              == Shift(if |rs| > 0 && r.ts - rs[|rs| - 1].ts <= cfg.staleness then Recent(cfg, rs) else Vacant, r)
  {
  }

  /** The channel's memory is that of the readings: window, time and whether there were any. */
  ghost predicate Remembers(cfg: Config, c: Channel, rs: seq<Reading>) {
    && c.window == HeardAll(Recent(cfg, rs))
    && (|rs| == 0 ==> c == BLANK)
    && (|rs| > 0 ==> c.prevTs == rs[|rs| - 1].ts)
  }

  /** What the channel keeps and passes on, for a window that is still fresh. */
  lemma KeptWindow(w: Window, r: Reading)
    ensures var grown := HeardAll(w) + [Heard(r)];
            HeardAll(Shift(w, r)) == if |grown| > 3 then grown[1..] else grown
    ensures var x := HeardAll(Shift(w, r));
            Passed(Shift(w, r)) == if |x| == 3 then Middle(x[0], x[1], x[2]) else Heard(r)
  {
    hide Middle, Heard;
  }

  /** The window of the channel after one more reading, and what it passes to the guard. */
  lemma WindowStep(cfg: Config, c: Channel, rs: seq<Reading>, r: Reading)
    requires cfg.medianFilter && Remembers(cfg, c, rs)
    ensures !Recent(cfg, rs + [r]).Vacant?
    ensures NextWindow(cfg, c, Heard(r), r.ts) == HeardAll(Recent(cfg, rs + [r]))
    ensures Smoothed(cfg, c, Heard(r), r.ts) == Passed(Recent(cfg, rs + [r]))
  {
    NextRecent(cfg, rs, r);
    NextRecent(cfg, [], r);
    hide Recent, HeardAll, Middle, Heard, Shift, Passed;
    NothingHeard(cfg);
    KeptWindow(Vacant, r);
    KeptWindow(Recent(cfg, rs), r);
  }

  lemma NothingHeard(cfg: Config)
    ensures Recent(cfg, []) == Vacant && HeardAll(Vacant) == []
  {
  }

  /** What one reading does to the channel with the median on. */
  lemma ReadingStep(cfg: Config, c: Channel, raw: string, ts: real, v: real)
    requires cfg.medianFilter && Parse(raw) == Some(v)
    ensures var after, input := ChannelStep(cfg, c, raw, ts).channel, Smoothed(cfg, c, v, ts);
            var verdict := Judge(cfg, c, input, ts);
            && after.window == NextWindow(cfg, c, v, ts) && after.prevTs == ts
            && after.prev == Some(if verdict == Corrected then -input else input)
            && after.streak == if verdict == Corrected then c.streak + 1 else 0
  {
    hide Parse, Smoothed, NextWindow, Judge, Quantize;
  }

  /** One reading through a channel that remembers the earlier ones. */
  lemma TakeReading(cfg: Config, c: Channel, rs: seq<Reading>, r: Reading, raw: string)
    requires cfg.medianFilter && Remembers(cfg, c, rs) && Parse(raw) == Some(Heard(r))
    ensures var after, input := ChannelStep(cfg, c, raw, r.ts).channel, Smoothed(cfg, c, Heard(r), r.ts);
            var verdict := Judge(cfg, c, input, r.ts);
            && Remembers(cfg, after, rs + [r]) && !Recent(cfg, rs + [r]).Vacant?
            && input == Passed(Recent(cfg, rs + [r]))
            && after.prev == Some(if verdict == Corrected then -input else input)
            && after.streak == if verdict == Corrected then c.streak + 1 else 0
  {
    hide Parse, Recent, Smoothed, NextWindow, Judge, Heard, Passed, HeardAll, ChannelStep;
    WindowStep(cfg, c, rs, r);
    ReadingStep(cfg, c, raw, r.ts, Heard(r));
  }

  /** The channel after the run, from the channel before its last sample. */
  lemma LastSample(cfg: Config, run: seq<Sample>)
    requires |run| > 0
    ensures var last := Received(run[|run| - 1]);
            StateAfter(cfg, ReceivedRun(run))
              == ChannelStep(cfg, StateAfter(cfg, ReceivedRun(run[..|run| - 1])), last.raw, last.ts).channel
  {
    hide Parse, ChannelStep;
    RunPrefixes(run);
  }

  /** A marker changes neither the channel nor the readings. */
  lemma MarkerStep(cfg: Config, run: seq<Sample>, positive: bool)
    requires |run| > 0 && SampleSigned(run[|run| - 1], positive) && Parse(run[|run| - 1].raw).None?
    ensures Parse(Received(run[|run| - 1]).raw).None?
    ensures StateAfter(cfg, ReceivedRun(run)) == StateAfter(cfg, ReceivedRun(run[..|run| - 1]))
    ensures ReadingsOf(run) == ReadingsOf(run[..|run| - 1])
  {
    hide Parse, Smoothed, Judge, Settle;
    ReceivedParses(run[|run| - 1], positive);
    LastSample(cfg, run);
  }

  /** The channel took in the last reading of the run through window and guard. */
  ghost predicate Taken(cfg: Config, run: seq<Sample>)
    requires |run| > 0 && Parse(Received(run[|run| - 1]).raw).Some?
  {
    var before, after := StateAfter(cfg, ReceivedRun(run[..|run| - 1])), StateAfter(cfg, ReceivedRun(run));
    var input := GuardInput(cfg, run);
    var verdict := Judge(cfg, before, input, run[|run| - 1].ts);
    && !Recent(cfg, ReadingsOf(run)).Vacant? && input == Passed(Recent(cfg, ReadingsOf(run)))
    && after.prev == Some(if verdict == Corrected then -input else input)
    && after.streak == if verdict == Corrected then before.streak + 1 else 0
  }

  lemma SampleStep(cfg: Config, run: seq<Sample>, positive: bool, v: real)
    requires cfg.medianFilter && |run| > 0 && SampleSigned(run[|run| - 1], positive)
    requires Remembers(cfg, StateAfter(cfg, ReceivedRun(run[..|run| - 1])), ReadingsOf(run[..|run| - 1]))
    requires Parse(run[|run| - 1].raw) == Some(v)
    ensures Parse(Received(run[|run| - 1]).raw).Some? && Taken(cfg, run)
    ensures Remembers(cfg, StateAfter(cfg, ReceivedRun(run)), ReadingsOf(run))
    ensures var s := run[|run| - 1]; ReadingsOf(run) == ReadingsOf(run[..|run| - 1]) + [Reading(v, s.ts, s.flipped)]
    ensures HasSign(v, positive)
  {
    hide Parse, Remembers, Recent, Smoothed, Judge, StateAfter, Received, ReceivedRun, SampleSigned, Heard, Passed, ChannelStep, HasSign;
    var s, prefix := run[|run| - 1], run[..|run| - 1];
    ReceivedParses(s, positive);
    LastSample(cfg, run);
    TakeReading(cfg, StateAfter(cfg, ReceivedRun(prefix)), ReadingsOf(prefix), Reading(v, s.ts, s.flipped), Received(s).raw);
  }

  lemma {:induction false} ChannelRemembers(cfg: Config, run: seq<Sample>, positive: bool)
    requires cfg.medianFilter && OneSign(run, positive)
    ensures Remembers(cfg, StateAfter(cfg, ReceivedRun(run)), ReadingsOf(run))
    ensures AllSigned(ReadingsOf(run), positive)
  {
    hide Parse, Remembers, StateAfter, ReadingsOf, Taken, Received, SampleSigned, HasSign;
    if |run| == 0 {
      BlankRemembers(cfg);
    } else {
      ChannelRemembers(cfg, run[..|run| - 1], positive);
      match Parse(run[|run| - 1].raw) {
        case None => MarkerStep(cfg, run, positive);
        case Some(v) => SampleStep(cfg, run, positive, v);
      }
    }
  }

  lemma BlankRemembers(cfg: Config)
    ensures Remembers(cfg, StateAfter(cfg, ReceivedRun([])), ReadingsOf([])) && ReadingsOf([]) == []
  {
  }

  // ---------------------------------------------------------------- whole runs

  /**
    What the median layer is worth: with readings of one sign, the guard's input has that sign at
    every reading of the run if and only if every flipped reading arrives after two recent
    untouched ones.
  */
  lemma {:induction false} MedianProtectsIff(cfg: Config, run: seq<Sample>, positive: bool)
    requires cfg.medianFilter && OneSign(run, positive)
    ensures InputsSigned(cfg, run, positive) <==> FlipsIsolated(cfg, ReadingsOf(run))
  {
    hide Parse, Recent, Remembers, GuardInput, HasSign, StateAfter, ReadingsOf, Received, SampleSigned, Judge;
    if |run| == 0 {
      BlankRemembers(cfg);
    } else {
      var prefix := run[..|run| - 1];
      MedianProtectsIff(cfg, prefix, positive);
      ChannelRemembers(cfg, prefix, positive);
      ChannelRemembers(cfg, run, positive);
      match Parse(run[|run| - 1].raw) {
        case None => MarkerStep(cfg, run, positive);
        case Some(v) =>
          SampleStep(cfg, run, positive, v);
          var rs := ReadingsOf(run);
          assert rs[..|rs| - 1] == ReadingsOf(prefix);
          if FlipsIsolated(cfg, ReadingsOf(prefix)) {
            PassedStep(cfg, rs, positive);
          }
      }
    }
  }

  /** The guard has had nothing to do and stores what it was passed. */
  ghost predicate GuardIdle(cfg: Config, run: seq<Sample>, positive: bool) {
    var c, rs := StateAfter(cfg, ReceivedRun(run)), ReadingsOf(run);
    && c.streak == 0
    && (|rs| == 0 ==> c.prev.None?)
    && (|rs| > 0 ==> !Recent(cfg, rs).Vacant? && c.prev == Some(Passed(Recent(cfg, rs))) && HasSign(c.prev.value, positive))
  }

  /**
    Over a whole run with isolated flips the guard corrects nothing, and after every reading the
    stored value has the true sign and lies between the smallest and the largest true reading of
    the last three.
  */
  lemma {:induction false} MedianKeepsGuardIdle(cfg: Config, run: seq<Sample>, positive: bool)
    requires cfg.medianFilter && OneSign(run, positive) && FlipsIsolated(cfg, ReadingsOf(run))
    ensures GuardIdle(cfg, run, positive)
    ensures forall low, high | |ReadingsOf(run)| > 0 && Spans(Recent(cfg, ReadingsOf(run)), low, high) ::
              low <= StateAfter(cfg, ReceivedRun(run)).prev.value <= high
  {
    hide Parse, Recent, Remembers, GuardInput, HasSign, StateAfter, ReadingsOf, Received, SampleSigned, Judge, Passed;
    if |run| == 0 {
      BlankRemembers(cfg);
    } else {
      var prefix, rs := run[..|run| - 1], ReadingsOf(run);
      ChannelRemembers(cfg, prefix, positive);
      ChannelRemembers(cfg, run, positive);
      match Parse(run[|run| - 1].raw) {
        case None =>
          MarkerStep(cfg, run, positive);
          MedianKeepsGuardIdle(cfg, prefix, positive);
        case Some(v) =>
          SampleStep(cfg, run, positive, v);
          assert rs[..|rs| - 1] == ReadingsOf(prefix);
          PassedStep(cfg, rs, positive);
          MedianKeepsGuardIdle(cfg, prefix, positive);
          SameSignIsPlain(cfg, StateAfter(cfg, ReceivedRun(prefix)), GuardInput(cfg, run), run[|run| - 1].ts, positive);
      }
    }
    forall low, high | |ReadingsOf(run)| > 0 && Spans(Recent(cfg, ReadingsOf(run)), low, high)
      ensures !Recent(cfg, ReadingsOf(run)).Vacant? && low <= Passed(Recent(cfg, ReadingsOf(run))) <= high
    {
      ChannelRemembers(cfg, run, positive);
      PassedBetween(cfg, ReadingsOf(run), positive, low, high);
    }
  }

  lemma SameSignIsPlain(cfg: Config, c: Channel, value: real, ts: real, positive: bool)
    requires HasSign(value, positive) && (c.prev.Some? ==> HasSign(c.prev.value, positive))
    ensures Judge(cfg, c, value, ts) == Plain
  {
    if c.prev.Some? {
      SignProduct(value, c.prev.value);
    }
  }
}

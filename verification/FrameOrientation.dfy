/**
  Section [4] of the flicker diagnosis: deciding frame by frame whether all channels were
  negated at once, from medians of adjacent differences, and recovering the orientation of
  every frame from those relative decisions.
*/
module FrameOrientation {
  import opened Basics

  // ---------------------------------------------------------------- order statistics

  predicate Ascending(s: seq<real>) {
    forall i, j | 0 <= i < j < |s| :: s[i] <= s[j]
  }

  function Insert(x: real, s: seq<real>): (r: seq<real>)
    requires Ascending(s)
    ensures Ascending(r) && |r| == |s| + 1
    ensures forall y | y in r :: y == x || y in s
  {
    if |s| == 0 then [x]
    else if x <= s[0] then [x] + s
    else
      var rest := Insert(x, s[1..]);
      assert forall y | y in rest :: s[0] <= y;
      assert forall i | 0 <= i < |rest| :: rest[i] in rest;
      [s[0]] + rest
  }

  function Sorted(s: seq<real>): (r: seq<real>)
    ensures Ascending(r) && |r| == |s|
  {
    if |s| == 0 then [] else Insert(s[0], Sorted(s[1..]))
  }

  /** The upper median: the middle element of the sorted list. */
  function Median(s: seq<real>): real
    requires |s| > 0
  {
    Sorted(s)[|s| / 2]
  }

  predicate Counted(x: real, c: real, strictly: bool) {
    if strictly then x < c else x <= c
  }

  /** How many elements lie below c, or at most at c. */
  function Count(s: seq<real>, c: real, strictly: bool): nat {
    if |s| == 0 then 0 else (if Counted(s[0], c, strictly) then 1 else 0) + Count(s[1..], c, strictly)
  }

  lemma {:induction false} CountInsert(x: real, s: seq<real>, c: real, strictly: bool)
    requires Ascending(s)
    ensures Count(Insert(x, s), c, strictly) == Count([x] + s, c, strictly)
  {
    assert ([x] + s)[1..] == s;
    if |s| > 0 && x > s[0] {
      CountInsert(x, s[1..], c, strictly);
      assert ([x] + s[1..])[1..] == s[1..];
      assert Insert(x, s)[1..] == Insert(x, s[1..]);
    }
  }

  lemma {:induction false} CountSorted(s: seq<real>, c: real, strictly: bool)
    ensures Count(Sorted(s), c, strictly) == Count(s, c, strictly)
  {
    if |s| > 0 {
      CountSorted(s[1..], c, strictly);
      CountInsert(s[0], Sorted(s[1..]), c, strictly);
      assert ([s[0]] + Sorted(s[1..]))[1..] == Sorted(s[1..]);
    }
  }

  /** In an ascending list the m-th element is counted exactly when more than m elements are. */
  lemma {:induction false} CountDecidesRank(s: seq<real>, m: nat, c: real, strictly: bool)
    requires Ascending(s) && m < |s|
    ensures Counted(s[m], c, strictly) <==> Count(s, c, strictly) > m
  {
    if !Counted(s[0], c, strictly) {
      NoneCounted(s, c, strictly);
    } else if m > 0 {
      CountDecidesRank(s[1..], m - 1, c, strictly);
    }
  }

  lemma {:induction false} NoneCounted(s: seq<real>, c: real, strictly: bool)
    requires forall i | 0 <= i < |s| :: !Counted(s[i], c, strictly)
    ensures Count(s, c, strictly) == 0
  {
    if |s| > 0 {
      NoneCounted(s[1..], c, strictly);
    }
  }

  lemma {:induction false} PointwiseCounts(xs: seq<real>, ys: seq<real>, c: real)
    requires |xs| == |ys| && forall i | 0 <= i < |xs| :: xs[i] < ys[i]
    ensures Count(ys, c, false) <= Count(xs, c, true)
  {
    if |xs| > 0 {
      PointwiseCounts(xs[1..], ys[1..], c);
    }
  }

  /** Every order statistic is strictly monotone in the data. */
  lemma RankStrictlyMonotone(xs: seq<real>, ys: seq<real>, m: nat)
    requires |xs| == |ys| && forall i | 0 <= i < |xs| :: xs[i] < ys[i]
    requires m < |xs|
    ensures Sorted(xs)[m] < Sorted(ys)[m]
  {
    var c := Sorted(ys)[m];
    CountDecidesRank(Sorted(ys), m, c, false);
    CountSorted(ys, c, false);
    PointwiseCounts(xs, ys, c);
    CountSorted(xs, c, true);
    CountDecidesRank(Sorted(xs), m, c, true);
  }

  /** The median is the upper one: fewer than half lie below it, and it is not above more than half. */
  lemma MedianSplits(s: seq<real>)
    requires |s| > 0
    ensures Count(s, Median(s), true) <= |s| / 2 < Count(s, Median(s), false)
  {
    CountDecidesRank(Sorted(s), |s| / 2, Median(s), true);
    CountDecidesRank(Sorted(s), |s| / 2, Median(s), false);
    CountSorted(s, Median(s), true);
    CountSorted(s, Median(s), false);
  }

  // ---------------------------------------------------------------- relative decisions

  type Frame = seq<Option<real>>

  /** A channel counts when both readings exist and one of them is large enough. */
  predicate Considered(a: Option<real>, b: Option<real>, minMag: real) {
    a.Some? && b.Some? && (Abs(a.value) >= minMag || Abs(b.value) >= minMag)
  }

  /** One channel's error, read as equal or as negated. */
  function Error(x: Option<real>, y: Option<real>, minMag: real, negated: bool): real
    requires Considered(x, y, minMag)
  {
    Abs(if negated then y.value + x.value else y.value - x.value)
  }

  /** |b - a| (same) or |b + a| (negated) over the considered channels. */
  function Errors(a: Frame, b: Frame, minMag: real, negated: bool): seq<real>
    requires |a| == |b|
  {
    if |a| == 0 then []
    else
      var rest := Errors(a[1..], b[1..], minMag, negated);
      if Considered(a[0], b[0], minMag) then
        [Error(a[0], b[0], minMag, negated)] + rest
      else rest
  }

  lemma {:induction false} ErrorsAligned(a: Frame, b: Frame, minMag: real)
    requires |a| == |b|
    ensures |Errors(a, b, minMag, true)| == |Errors(a, b, minMag, false)|
  {
    if |a| > 0 {
      ErrorsAligned(a[1..], b[1..], minMag);
    }
  }

  predicate FlippedAgainst(a: Frame, b: Frame, minMag: real)
    requires |a| == |b|
  {
    var same, negated := Errors(a, b, minMag, false), Errors(a, b, minMag, true);
    |same| > 0 && |negated| > 0 && Median(negated) < Median(same)
  }

  function Negate(f: Frame): Frame {
    seq(|f|, i requires 0 <= i < |f| => if f[i].Some? then Some(-f[i].value) else None)
  }

  function Oriented(f: Frame, negated: bool): Frame {
    if negated then Negate(f) else f
  }

  /** Adjacent true frames agree in sign on every considered channel, and there is one. */
  ghost predicate Coherent(a: Frame, b: Frame, minMag: real)
    requires |a| == |b|
  {
    && (forall i | 0 <= i < |a| && a[i].Some? && b[i].Some? ::
          (a[i].value >= minMag || -a[i].value >= minMag || b[i].value >= minMag || -b[i].value >= minMag) ==>
            (a[i].value > 0.0 && b[i].value > 0.0) || (a[i].value < 0.0 && b[i].value < 0.0))
    && exists i | 0 <= i < |a| :: a[i].Some? && b[i].Some?
         && (a[i].value >= minMag || -a[i].value >= minMag || b[i].value >= minMag || -b[i].value >= minMag)
  }

  function Turned(x: Option<real>, negated: bool): Option<real> {
    if negated && x.Some? then Some(-x.value) else x
  }

  lemma OrientedParts(f: Frame, negated: bool)
    ensures |Oriented(f, negated)| == |f|
    ensures |f| > 0 ==> Oriented(f, negated)[0] == Turned(f[0], negated) && Oriented(f, negated)[1..] == Oriented(f[1..], negated)
  {
  }

  lemma ErrorTurned(x: Option<real>, y: Option<real>, minMag: real, nx: bool, ny: bool, negated: bool)
    ensures Considered(Turned(x, nx), Turned(y, ny), minMag) == Considered(x, y, minMag)
    ensures Considered(x, y, minMag) ==>
              Error(Turned(x, nx), Turned(y, ny), minMag, negated) == Error(x, y, minMag, negated != (nx != ny))
  {
  }

  /** Negating both frames changes no error; negating one swaps the two error lists. */
  lemma {:induction false} ErrorsOriented(a: Frame, b: Frame, minMag: real, na: bool, nb: bool, negated: bool)
    requires |a| == |b|
    ensures |Oriented(a, na)| == |Oriented(b, nb)|
    ensures Errors(Oriented(a, na), Oriented(b, nb), minMag, negated) == Errors(a, b, minMag, negated != (na != nb))
  {
    hide Oriented, Considered, Error, Turned;
    OrientedParts(a, na);
    OrientedParts(b, nb);
    if |a| > 0 {
      ErrorsOriented(a[1..], b[1..], minMag, na, nb, negated);
      ErrorTurned(a[0], b[0], minMag, na, nb, negated);
    }
  }

  lemma {:induction false} CoherentErrors(a: Frame, b: Frame, minMag: real)
    requires |a| == |b|
    requires forall i | 0 <= i < |a| && Considered(a[i], b[i], minMag) ::
               (a[i].value > 0.0 && b[i].value > 0.0) || (a[i].value < 0.0 && b[i].value < 0.0)
    ensures var same, negated := Errors(a, b, minMag, false), Errors(a, b, minMag, true);
            && |same| == |negated|
            && (forall i | 0 <= i < |same| :: same[i] < negated[i])
            && ((exists i | 0 <= i < |a| :: Considered(a[i], b[i], minMag)) ==> |same| > 0)
  {
    if |a| > 0 {
      var a', b' := a[1..], b[1..];
      assert forall i | 0 <= i < |a'| :: a'[i] == a[i + 1] && b'[i] == b[i + 1];
      CoherentErrors(a', b', minMag);
      if i :| 0 <= i < |a| && Considered(a[i], b[i], minMag) {
        if i > 0 { assert Considered(a'[i - 1], b'[i - 1], minMag); }
      }
    }
  }

  /** The relative decision is right on coherent true frames, however they were negated. */
  lemma FlipDecisionExact(a: Frame, b: Frame, minMag: real, na: bool, nb: bool)
    requires |a| == |b| && Coherent(a, b, minMag)
    ensures |Oriented(a, na)| == |Oriented(b, nb)|
    ensures FlippedAgainst(Oriented(a, na), Oriented(b, nb), minMag) <==> na != nb
  {
    ErrorsOriented(a, b, minMag, na, nb, false);
    ErrorsOriented(a, b, minMag, na, nb, true);
    CoherentErrors(a, b, minMag);
    var same, negated := Errors(a, b, minMag, false), Errors(a, b, minMag, true);
    RankStrictlyMonotone(same, negated, |same| / 2);
  }

  /** Which channels decide: both readings exist and one of them reaches the threshold. */
  lemma ConsideredIff(x: Option<real>, y: Option<real>, minMag: real)
    requires minMag >= 0.0
    ensures Considered(x, y, minMag) <==>
              x.Some? && y.Some? && !(-minMag < x.value < minMag && -minMag < y.value < minMag)
  {
  }

  /** A tie decides for equal: no frame is flipped against another and against its negation. */
  lemma NeverFlippedAgainstBoth(a: Frame, b: Frame, minMag: real)
    requires |a| == |b|
    ensures |Negate(b)| == |a| && !(FlippedAgainst(a, b, minMag) && FlippedAgainst(a, Negate(b), minMag))
  {
    ErrorsOriented(a, b, minMag, false, true, false);
    ErrorsOriented(a, b, minMag, false, true, true);
  }

  // ---------------------------------------------------------------- orientation

  predicate Rectangular(frames: seq<Frame>) {
    forall i, j | 0 <= i < |frames| && 0 <= j < |frames| :: |frames[i]| == |frames[j]|
  }

  /** flip_rel: entry k compares frame k with frame k - 1. */
  method RelativeFlips(frames: seq<Frame>, minMag: real) returns (flips: seq<bool>)
    requires Rectangular(frames)
    ensures |flips| == |frames|
    ensures |flips| > 0 ==> !flips[0]
    ensures forall k | 0 < k < |frames| :: flips[k] == FlippedAgainst(frames[k - 1], frames[k], minMag)
  {
    flips := seq(|frames|, _ => false);
    var k := 1;
    while k < |frames|
      invariant k >= 1 && |flips| == |frames|
      invariant |flips| > 0 ==> !flips[0]
      invariant forall j | 0 < j < k && j < |frames| :: flips[j] == FlippedAgainst(frames[j - 1], frames[j], minMag)
      invariant forall j | k <= j < |frames| :: !flips[j]
    {
      var both := Errors(frames[k - 1], frames[k], minMag, false);
      ErrorsAligned(frames[k - 1], frames[k], minMag);
      if |both| > 0 {
        var errSame := Median(both);
        var errNeg := Median(Errors(frames[k - 1], frames[k], minMag, true));
        flips := flips[k := errNeg < errSame];
      }
      k := k + 1;
    }
  }

  function Trues(flags: seq<bool>): nat {
    if |flags| == 0 then 0 else Trues(flags[..|flags| - 1]) + (if flags[|flags| - 1] then 1 else 0)
  }

  function Complement(flags: seq<bool>): (r: seq<bool>)
    ensures |r| == |flags|
  {
    seq(|flags|, i requires 0 <= i < |flags| => !flags[i])
  }

  lemma {:induction false} TruesOfComplement(flags: seq<bool>)
    ensures Trues(Complement(flags)) == |flags| - Trues(flags)
  {
    if |flags| > 0 {
      var prefix := flags[..|flags| - 1];
      assert Complement(flags)[..|flags| - 1] == Complement(prefix);
      TruesOfComplement(prefix);
    }
  }

  /** Whether the relative flips tell the story of the given orientations. */
  predicate Explains(flips: seq<bool>, negated: seq<bool>) {
    && |flips| == |negated|
    && forall k | 0 < k < |flips| :: flips[k] == (negated[k] != negated[k - 1])
  }

  /**
    inverted: the running parity of the flips, complemented when it marks the majority.
    It agrees with any orientation the flips explain, or with its complement throughout, and
    never marks more than half of the frames.
  */
  method Orientation(flips: seq<bool>) returns (inverted: seq<bool>)
    ensures |inverted| == |flips|
    ensures Explains(flips, inverted)
    ensures 2 * Trues(inverted) <= |flips|
    ensures |flips| > 0 && 2 * Trues(inverted) == |flips| ==> !inverted[0]
  {
    inverted := seq(|flips|, _ => false);
    var k := 1;
    while k < |flips|
      invariant k >= 1 && |inverted| == |flips|
      invariant |flips| > 0 ==> !inverted[0]
      invariant forall j | 0 < j < k && j < |flips| :: flips[j] == (inverted[j] != inverted[j - 1])
    {
      inverted := inverted[k := inverted[k - 1] != flips[k]];
      k := k + 1;
    }
    if 2 * Trues(inverted) > |flips| {
      TruesOfComplement(inverted);
      inverted := Complement(inverted);
    }
  }

  /** Two orientations explained by the same flips agree everywhere or nowhere. */
  lemma {:induction false} ExplanationsAgree(flips: seq<bool>, a: seq<bool>, b: seq<bool>, k: nat)
    requires Explains(flips, a) && Explains(flips, b) && k < |flips|
    ensures (a[k] == b[k]) == (a[0] == b[0])
  {
    if k > 0 {
      ExplanationsAgree(flips, a, b, k - 1);
    }
  }

  /** What the whole section receives: true frames, some of them negated as a whole. */
  ghost predicate Captured(frames: seq<Frame>, truth: seq<Frame>, negated: seq<bool>, minMag: real) {
    && |frames| == |truth| == |negated|
    && Rectangular(truth)
    && (forall k | 0 <= k < |frames| :: frames[k] == Oriented(truth[k], negated[k]))
    && (forall k | 0 < k < |frames| :: Coherent(truth[k - 1], truth[k], minMag))
  }

  /** The negated frames are the minority, ties going to the first frame's side. */
  predicate MinorityNegated(negated: seq<bool>) {
    2 * Trues(negated) < |negated|
    || (2 * Trues(negated) == |negated| && (|negated| > 0 ==> !negated[0]))
  }

  /** The repair the tool reports on: every marked frame is negated back. */
  function Repaired(frames: seq<Frame>, inverted: seq<bool>): seq<Frame>
    requires |frames| == |inverted|
  {
    seq(|frames|, k requires 0 <= k < |frames| => Oriented(frames[k], inverted[k]))
  }

  function Negated(frames: seq<Frame>): seq<Frame> {
    seq(|frames|, k requires 0 <= k < |frames| => Negate(frames[k]))
  }

  /** Repairing by the computed marks gives the true frames, or all of them negated. */
  lemma RepairRestores(frames: seq<Frame>, truth: seq<Frame>, negated: seq<bool>, minMag: real, inverted: seq<bool>)
    requires Captured(frames, truth, negated, minMag)
    requires inverted == if MinorityNegated(negated) then negated else Complement(negated)
    ensures Repaired(frames, inverted) == if MinorityNegated(negated) then truth else Negated(truth)
  {
    forall k | 0 <= k < |frames|
      ensures Oriented(Oriented(truth[k], negated[k]), negated[k]) == truth[k]
      ensures Oriented(Oriented(truth[k], negated[k]), !negated[k]) == Negate(truth[k])
    {
    }
  }

  /**
    Orientation recovery: on a capture of coherent frames `inverted` marks exactly the negated
    ones when they are the minority, and exactly the others when they are not.
  */
  method Recover(frames: seq<Frame>, minMag: real, ghost truth: seq<Frame>, ghost negated: seq<bool>)
    returns (inverted: seq<bool>)
    requires Captured(frames, truth, negated, minMag)
    ensures inverted == if MinorityNegated(negated) then negated else Complement(negated)
    ensures Repaired(frames, inverted) == if MinorityNegated(negated) then truth else Negated(truth)
  {
    assert Rectangular(frames);
    var flips := RelativeFlips(frames, minMag);
    forall k | 0 < k < |flips|
      ensures flips[k] == (negated[k] != negated[k - 1])
    {
      FlipDecisionExact(truth[k - 1], truth[k], minMag, negated[k - 1], negated[k]);
    }
    inverted := Orientation(flips);
    OrientationDecides(flips, negated, inverted);
    RepairRestores(frames, truth, negated, minMag, inverted);
  }

  lemma OrientationDecides(flips: seq<bool>, negated: seq<bool>, inverted: seq<bool>)
    requires Explains(flips, negated) && Explains(flips, inverted)
    requires 2 * Trues(inverted) <= |flips|
    requires |flips| > 0 && 2 * Trues(inverted) == |flips| ==> !inverted[0]
    ensures inverted == if MinorityNegated(negated) then negated else Complement(negated)
  {
    forall k | 0 <= k < |flips|
      ensures (inverted[k] == negated[k]) == (inverted[0] == negated[0])
    {
      ExplanationsAgree(flips, inverted, negated, k);
    }
    TruesOfComplement(negated);
    if |flips| == 0 || inverted[0] == negated[0] {
      assert inverted == negated;
    } else {
      assert inverted == Complement(negated);
    }
  }

  // ---------------------------------------------------------------- bursts

  /** bursts[j] frames from starts[j] on are a maximal run of marked frames. */
  ghost predicate MaximalRun(flags: seq<bool>, start: nat, length: nat) {
    && length > 0 && start + length <= |flags|
    && (forall i | start <= i < start + length :: flags[i])
    && (start == 0 || !flags[start - 1])
    && (start + length == |flags| || !flags[start + length])
  }

  function Sum(xs: seq<nat>): nat {
    if |xs| == 0 then 0 else Sum(xs[..|xs| - 1]) + xs[|xs| - 1]
  }

  /** The runs found so far account for everything before `done`, which follows an unmarked frame. */
  ghost predicate Settled(flags: seq<bool>, bursts: seq<nat>, starts: seq<nat>, done: nat) {
    && |starts| == |bursts| && done <= |flags|
    && (done > 0 ==> !flags[done - 1])
    && RunsMaximal(flags, bursts, starts, done)
    && RunsOrdered(bursts, starts)
    && RunsCover(flags, bursts, starts, done)
    && Sum(bursts) == Trues(flags[..done])
  }

  ghost predicate RunsMaximal(flags: seq<bool>, bursts: seq<nat>, starts: seq<nat>, done: nat)
    requires |starts| == |bursts|
  {
    forall j | 0 <= j < |bursts| :: MaximalRun(flags, starts[j], bursts[j]) && starts[j] + bursts[j] < done
  }

  ghost predicate RunsOrdered(bursts: seq<nat>, starts: seq<nat>)
    requires |starts| == |bursts|
  {
    forall j | 0 < j < |bursts| :: starts[j - 1] + bursts[j - 1] < starts[j]
  }

  ghost predicate RunsCover(flags: seq<bool>, bursts: seq<nat>, starts: seq<nat>, done: nat)
    requires |starts| == |bursts| && done <= |flags|
  {
    forall i | 0 <= i < done && flags[i] :: InSomeRun(bursts, starts, i)
  }

  ghost predicate InSomeRun(bursts: seq<nat>, starts: seq<nat>, i: int)
    requires |starts| == |bursts|
  {
    exists j :: 0 <= j < |bursts| && starts[j] <= i < starts[j] + bursts[j]
  }

  predicate Marked(flags: seq<bool>, from: nat, to: nat)
    requires from <= to <= |flags|
  {
    forall i | from <= i < to :: flags[i]
  }

  lemma {:induction false} TruesOfRun(flags: seq<bool>, from: nat, length: nat)
    requires from + length <= |flags| && Marked(flags, from, from + length)
    ensures Trues(flags[..from + length]) == Trues(flags[..from]) + length
  {
    if length > 0 {
      TruesOfRun(flags, from, length - 1);
      assert flags[..from + length][..from + length - 1] == flags[..from + length - 1];
    }
  }

  lemma SettlePlain(flags: seq<bool>, bursts: seq<nat>, starts: seq<nat>, done: nat)
    requires Settled(flags, bursts, starts, done) && done < |flags| && !flags[done]
    ensures Settled(flags, bursts, starts, done + 1)
  {
    assert flags[..done + 1][..done] == flags[..done];
  }

  lemma CoverRun(flags: seq<bool>, bursts: seq<nat>, starts: seq<nat>, done: nat, run: nat)
    requires |starts| == |bursts| && done + run < |flags| && !flags[done + run]
    requires RunsCover(flags, bursts, starts, done)
    ensures RunsCover(flags, bursts + [run], starts + [done], done + run + 1)
  {
    var bursts', starts' := bursts + [run], starts + [done];
    forall i | 0 <= i < done + run + 1 && flags[i]
      ensures InSomeRun(bursts', starts', i)
    {
      if i < done {
        assert InSomeRun(bursts, starts, i);
        var j :| 0 <= j < |bursts| && starts[j] <= i < starts[j] + bursts[j];
        assert starts'[j] <= i < starts'[j] + bursts'[j];
      } else {
        assert starts'[|bursts|] <= i < starts'[|bursts|] + bursts'[|bursts|];
      }
    }
  }

  lemma MaximalRuns(flags: seq<bool>, bursts: seq<nat>, starts: seq<nat>, done: nat, run: nat)
    requires |starts| == |bursts| && RunsMaximal(flags, bursts, starts, done)
    requires RunsOrdered(bursts, starts)
    requires MaximalRun(flags, done, run)
    ensures RunsMaximal(flags, bursts + [run], starts + [done], done + run + 1)
    ensures RunsOrdered(bursts + [run], starts + [done])
  {
    hide MaximalRun;
  }

  lemma SettleRun(flags: seq<bool>, bursts: seq<nat>, starts: seq<nat>, done: nat, run: nat)
    requires Settled(flags, bursts, starts, done) && run > 0 && done + run < |flags|
    requires Marked(flags, done, done + run) && !flags[done + run]
    ensures Settled(flags, bursts + [run], starts + [done], done + run + 1)
  {
    hide RunsMaximal, RunsOrdered, RunsCover;
    var end := done + run;
    assert MaximalRun(flags, done, run);
    MaximalRuns(flags, bursts, starts, done, run);
    CoverRun(flags, bursts, starts, done, run);
    TruesOfRun(flags, done, run);
    assert flags[..end + 1][..end] == flags[..end];
    assert (bursts + [run])[..|bursts + [run]| - 1] == bursts;
  }

  lemma SettledAtStart(flags: seq<bool>)
    ensures Settled(flags, [], [], 0)
  {
    assert flags[..0] == [];
  }

  /** Dropping the sentinel the loop appends. */
  lemma SettledAll(inverted: seq<bool>, bursts: seq<nat>, starts: seq<nat>)
    requires Settled(inverted + [false], bursts, starts, |inverted| + 1)
    ensures forall j | 0 <= j < |bursts| :: MaximalRun(inverted, starts[j], bursts[j])
    ensures RunsOrdered(bursts, starts)
    ensures RunsCover(inverted, bursts, starts, |inverted|)
    ensures Sum(bursts) == Trues(inverted)
  {
    var flags := inverted + [false];
    assert flags[..|flags|] == flags && flags[..|flags| - 1] == inverted;
    assert forall i | 0 <= i < |inverted| :: inverted[i] == flags[i];
    forall j | 0 <= j < |bursts|
      ensures MaximalRun(inverted, starts[j], bursts[j])
    {
      assert MaximalRun(flags, starts[j], bursts[j]);
    }
  }

  /** The lengths of the maximal runs of marked frames, in order; together they cover them all. */
  method Bursts(inverted: seq<bool>) returns (bursts: seq<nat>, ghost starts: seq<nat>)
    ensures |starts| == |bursts|
    ensures forall j | 0 <= j < |bursts| :: MaximalRun(inverted, starts[j], bursts[j])
    ensures RunsOrdered(bursts, starts)
    ensures RunsCover(inverted, bursts, starts, |inverted|)
    ensures Sum(bursts) == Trues(inverted)
  {
    hide Settled, MaximalRun, RunsMaximal, RunsOrdered, RunsCover, InSomeRun, Sum, Trues;
    bursts, starts := [], [];
    var run := 0;
    var flags := inverted + [false];
    SettledAtStart(flags);
    for k := 0 to |flags|
      invariant 0 <= run <= k && (k == |flags| ==> run == 0) && |starts| == |bursts|
      invariant Settled(flags, bursts, starts, k - run)
      invariant Marked(flags, k - run, k)
    {
      if flags[k] {
        run := run + 1;
      } else if run > 0 {
        SettleRun(flags, bursts, starts, k - run, run);
        bursts, starts := bursts + [run], starts + [k - run];
        run := 0;
      } else {
        SettlePlain(flags, bursts, starts, k);
      }
    }
    SettledAll(inverted, bursts, starts);
  }
}

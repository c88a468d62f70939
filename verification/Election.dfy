/** The restart loop of Start in pkg/kubernetes/client.go around leader election.

    Each round is one election and how it ends: whether it led (and so recorded a success), how long
    after its launch its error reached the loop, how long after the failure was recorded the breaker
    was asked, the jitter drawn, and whether the context ended during the backoff. */
module Election {
  import opened Base
  import opened Reliability

  datatype Round =
    | ElectionError(led: bool, delay: nat, lag: nat, jitter: Jitter, cancelled: bool)
    | ContextDone

  datatype End = Running | BreakerOpen | ContextEnded | HandlersMissing

  /** The loop so far: the clock, the times of the recorded failures, and the backoffs waited. */
  datatype Loop = Loop(tracker: Tracker, clock: int, failures: seq<int>, waits: seq<int>, end: End)

  function Launch(tracker: Tracker, clock: int): Loop {
    Loop(tracker, clock, [], [], Running)
  }

  /** The tracker after the failure of a round is recorded, at time `now`. */
  function Recorded(t: Tracker, led: bool, now: int): Tracker {
    Fail(if led then Succeed(t) else t, now)
  }

  function Turn(l: Loop, r: Round): Loop {
    if !l.end.Running? then l
    else
      match r
      case ContextDone => l.(end := ContextEnded)
      case ElectionError(led, delay, lag, jitter, cancelled) =>
        var now := l.clock + delay;
        var t := Check(Recorded(l.tracker, led, now), now + lag);
        if t.state.Open? then Loop(t, now + lag, l.failures + [now], l.waits, BreakerOpen)
        else
          var wait := Backoff(t, jitter);
          Loop(t, now + lag + wait, l.failures + [now], l.waits + [wait], if cancelled then ContextEnded else Running)
  }

  function Loops(l: Loop, rounds: seq<Round>): Loop {
    if rounds == [] then l else Turn(Loops(l, rounds[..|rounds| - 1]), rounds[|rounds| - 1])
  }

  class Elector {
    const tracker: ReliabilityTracker
    const handlersRegistered: bool

    constructor (tracker: ReliabilityTracker, handlersRegistered: bool)
      ensures this.tracker == tracker && this.handlersRegistered == handlersRegistered
    {
      this.tracker, this.handlersRegistered := tracker, handlersRegistered;
    }

    /** One election error: record, ask the breaker, back off. */
    method HandleElectionError(started: int, led: bool, delay: nat, lag: nat, jitter: Jitter)
      returns (clock: int, failedAt: int, wait: Option<int>)
      modifies tracker
      ensures failedAt == started + delay
      ensures var t := Check(Recorded(old(tracker.View()), led, failedAt), failedAt + lag);
        && tracker.View() == t
        && wait == (if t.state.Open? then None else Some(Backoff(t, jitter)))
        && clock == failedAt + lag + (if wait.Some? then wait.value else 0)
    {
      if led {
        tracker.RecordSuccess();
      }
      failedAt := started + delay;
      tracker.RecordFailure(failedAt);
      clock := failedAt + lag;
      var open := tracker.IsCircuitOpen(clock);
      if open {
        return clock, failedAt, None;
      }
      var backoff := tracker.GetBackoffDuration(jitter);
      clock, wait := clock + backoff, Some(backoff);
    }

    /** Runs the loop on the given rounds; when they are used up it is still waiting. */
    method Start(started: int, rounds: seq<Round>) returns (clock: int, failures: seq<int>, waits: seq<int>, end: End)
      modifies tracker
      ensures !handlersRegistered ==> end == HandlersMissing && tracker.View() == old(tracker.View())
      ensures handlersRegistered ==>
        Loop(tracker.View(), clock, failures, waits, end) == Loops(Launch(old(tracker.View()), started), rounds)
    {
      hide Recorded, Check, Backoff;
      clock, failures, waits := started, [], [];
      if !handlersRegistered {
        return clock, failures, waits, HandlersMissing;
      }
      end := Running;
      ghost var launch := Launch(old(tracker.View()), started);
      var i := 0;
      while i < |rounds| && end.Running?
        invariant 0 <= i <= |rounds|
        invariant Loop(tracker.View(), clock, failures, waits, end) == Loops(launch, rounds[..i])
        decreases |rounds| - i
      {
        LoopsSnoc(launch, rounds, i);
        match rounds[i] {
        case ContextDone =>
          end := ContextEnded;
        case ElectionError(led, delay, lag, jitter, cancelled) =>
          var failedAt, wait;
          clock, failedAt, wait := HandleElectionError(clock, led, delay, lag, jitter);
          failures := failures + [failedAt];
          if wait.None? {
            end := BreakerOpen;
          } else {
            waits := waits + [wait.value];
            end := if cancelled then ContextEnded else Running;
          }
        }
        i := i + 1;
      }
      EndedStays(launch, rounds, i);
    }
  }

  lemma LoopsSnoc(l: Loop, rounds: seq<Round>, i: nat)
    requires i < |rounds|
    ensures Loops(l, rounds[..i + 1]) == Turn(Loops(l, rounds[..i]), rounds[i])
  {
    hide Turn;
    assert rounds[..i + 1][..i] == rounds[..i];
  }

  /** A loop that has ended does not move again. */
  lemma {:induction false} EndedStays(l: Loop, rounds: seq<Round>, n: nat)
    requires n <= |rounds| && (n < |rounds| ==> !Loops(l, rounds[..n]).end.Running?)
    ensures Loops(l, rounds) == Loops(l, rounds[..n])
    decreases |rounds|
  {
    if n < |rounds| {
      var front := rounds[..|rounds| - 1];
      assert front[..n] == rounds[..n];
      EndedStays(l, front, n);
    } else {
      assert rounds[..n] == rounds;
    }
  }

  // ---------- how the loop ends ----------

  /** The breaker is open when it is asked after this round's failure. */
  predicate OpenAtCheck(l: Loop, r: Round)
    requires r.ElectionError?
  {
    var failedAt := l.clock + r.delay;
    Check(Recorded(l.tracker, r.led, failedAt), failedAt + r.lag).state.Open?
  }

  /** The context is done in this round: seen by the select, or during the backoff. */
  predicate ContextStops(l: Loop, r: Round) {
    r.ContextDone? || (!OpenAtCheck(l, r) && r.cancelled)
  }

  predicate BreakerStops(l: Loop, r: Round) {
    r.ElectionError? && OpenAtCheck(l, r)
  }

  predicate Stops(l: Loop, r: Round) {
    ContextStops(l, r) || BreakerStops(l, r)
  }

  /** Nothing stopped the loop in the first k rounds, and this one does. */
  ghost predicate FirstStop(launch: Loop, rounds: seq<Round>, k: int) {
    && 0 <= k < |rounds|
    && Stops(Loops(launch, rounds[..k]), rounds[k])
    && forall i | 0 <= i < k :: !Stops(Loops(launch, rounds[..i]), rounds[i])
  }

  /** How the loop stands after the rounds: still running with a failure and a backoff for each of them, or
      ended by the first round that stops it, in the way that round says, with nothing recorded after it. */
  ghost predicate EndsProperly(l: Loop, launch: Loop, rounds: seq<Round>) {
    if l.end.Running? then
      && |l.failures| == |l.waits| == |rounds|
      && forall i | 0 <= i < |rounds| :: !Stops(Loops(launch, rounds[..i]), rounds[i])
    else
      exists k :: FirstStop(launch, rounds, k) && EndedAt(l, launch, rounds, k)
  }

  ghost predicate EndedAt(l: Loop, launch: Loop, rounds: seq<Round>, k: int)
    requires 0 <= k < |rounds|
  {
    var before, r := Loops(launch, rounds[..k]), rounds[k];
    && l == Loops(launch, rounds[..k + 1])
    && (l.end == ContextEnded <==> ContextStops(before, r))
    && (l.end == BreakerOpen <==> BreakerStops(before, r))
    && |l.failures| == (if r.ContextDone? then k else k + 1)
    && |l.waits| == (if r.ElectionError? && r.cancelled && !OpenAtCheck(before, r) then k + 1 else k)
  }

  /** One round: it stops the loop or leaves it running. */
  lemma StopsIff(l: Loop, r: Round)
    requires l.end.Running?
    ensures var l' := Turn(l, r);
      && (l'.end.Running? <==> !Stops(l, r))
      && (l'.end == ContextEnded <==> ContextStops(l, r))
      && (l'.end == BreakerOpen <==> BreakerStops(l, r))
      && |l'.failures| == |l.failures| + (if r.ContextDone? then 0 else 1)
      && |l'.waits| == |l.waits| + (if r.ContextDone? || OpenAtCheck(l, r) then 0 else 1)
  {
    hide Backoff, Check, Recorded;
  }

  /** One more round after the rounds `front`. */
  lemma EndsProperlySnoc(launch: Loop, front: seq<Round>, last: Round)
    requires EndsProperly(Loops(launch, front), launch, front)
    ensures EndsProperly(Loops(launch, front + [last]), launch, front + [last])
  {
    hide Loops, Turn, ContextStops, BreakerStops, OpenAtCheck;
    var rounds, n, l := front + [last], |front|, Loops(launch, front);
    assert rounds[..n] == front && rounds[..n + 1] == rounds;
    LoopsSnoc(launch, rounds, n);
    assert forall i | 0 <= i <= n :: front[..i] == rounds[..i];
    if !l.end.Running? {
      EndedTurn(l, last);
      var k :| FirstStop(launch, front, k) && EndedAt(l, launch, front, k);
      assert FirstStop(launch, rounds, k) && EndedAt(l, launch, rounds, k);
    } else {
      StopsIff(l, last);
      assert Loops(launch, rounds) == Turn(l, last);
      if Stops(l, last) {
        assert FirstStop(launch, rounds, n);
        EndedHere(launch, rounds, n);
      } else {
        RunsOn(l, last);
      }
    }
  }

  lemma EndedHere(launch: Loop, rounds: seq<Round>, k: nat)
    requires k < |rounds| && rounds[..k + 1] == rounds
    requires var before := Loops(launch, rounds[..k]);
      && before.end.Running? && Stops(before, rounds[k])
      && |before.failures| == |before.waits| == k
    ensures EndedAt(Loops(launch, rounds), launch, rounds, k)
  {
    hide Loops, Turn, OpenAtCheck;
    LoopsSnoc(launch, rounds, k);
    StopsIff(Loops(launch, rounds[..k]), rounds[k]);
  }

  lemma RunsOn(l: Loop, r: Round)
    requires !Stops(l, r)
    ensures r.ElectionError? && !OpenAtCheck(l, r)
  {
  }

  /** Start ends exactly when the context is done, with its error, or when a check finds the breaker open,
      whichever comes first, and for any tracker and any rounds it goes on otherwise. */
  lemma {:induction false} EndsAtFirstStop(tracker: Tracker, started: int, rounds: seq<Round>)
    ensures EndsProperly(Loops(Launch(tracker, started), rounds), Launch(tracker, started), rounds)
  {
    if rounds == [] {
    } else {
      hide EndsProperly, Turn, Loops;
      var front, last := rounds[..|rounds| - 1], rounds[|rounds| - 1];
      EndsAtFirstStop(tracker, started, front);
      EndsProperlySnoc(Launch(tracker, started), front, last);
      assert front + [last] == rounds;
    }
  }

  // ---------- when things happen ----------

  /** The time of the i-th launch of the election: at the start, or when the backoff before it is over. */
  function LaunchedAt(l: Loop, started: int, rounds: seq<Round>, i: nat): int
    requires i <= |l.failures| && i <= |l.waits| && i <= |rounds| && forall j | 0 <= j < i :: rounds[j].ElectionError?
  {
    if i == 0 then started else l.failures[i - 1] + rounds[i - 1].lag + l.waits[i - 1]
  }

  /** Each failure comes when the error of its election does, and the clock is at the next launch. */
  ghost predicate Timed(l: Loop, started: int, rounds: seq<Round>) {
    && |l.waits| <= |l.failures| <= |l.waits| + 1 && |l.failures| <= |rounds|
    && (forall i | 0 <= i < |l.failures| :: rounds[i].ElectionError?)
    && (forall i | 0 <= i < |l.failures| :: l.failures[i] == LaunchedAt(l, started, rounds, i) + rounds[i].delay)
    && (l.end.Running? ==>
          |l.failures| == |l.waits| == |rounds| && l.clock == LaunchedAt(l, started, rounds, |rounds|))
  }

  lemma TimedTurn(l: Loop, started: int, rounds: seq<Round>, r: Round)
    requires Timed(l, started, rounds) && l.end.Running?
    ensures Timed(Turn(l, r), started, rounds + [r])
  {
    hide Backoff, Check, Recorded;
    var l', more := Turn(l, r), rounds + [r];
    if r.ElectionError? {
      assert forall i | 0 <= i < |rounds| :: more[i] == rounds[i] && l'.failures[i] == l.failures[i];
      assert forall i | 0 <= i < |l.waits| :: l'.waits[i] == l.waits[i];
      forall i | 0 <= i < |l'.failures| ensures l'.failures[i] == LaunchedAt(l', started, more, i) + more[i].delay {
        if i < |l.failures| {
          assert l.failures[i] == LaunchedAt(l, started, rounds, i) + rounds[i].delay;
        }
      }
    }
  }

  lemma TimedStays(l: Loop, started: int, rounds: seq<Round>, r: Round)
    requires Timed(l, started, rounds) && !l.end.Running?
    ensures Timed(l, started, rounds + [r])
  {
    var more := rounds + [r];
    forall i | 0 <= i < |l.failures| ensures l.failures[i] == LaunchedAt(l, started, more, i) + more[i].delay {
      assert l.failures[i] == LaunchedAt(l, started, rounds, i) + rounds[i].delay;
    }
  }

  lemma TimedOneMore(l: Loop, started: int, front: seq<Round>, last: Round)
    requires Timed(l, started, front)
    ensures Timed(Turn(l, last), started, front + [last])
  {
    hide Turn, Timed;
    if l.end.Running? {
      TimedTurn(l, started, front, last);
    } else {
      EndedTurn(l, last);
      TimedStays(l, started, front, last);
    }
  }

  /** The timing of any run: an election is launched at the start and again after each backoff, and its
      failure is recorded when its error arrives. */
  lemma {:induction false} Timeline(tracker: Tracker, started: int, rounds: seq<Round>)
    ensures Timed(Loops(Launch(tracker, started), rounds), started, rounds)
  {
    if rounds == [] {
    } else {
      hide Turn, Timed;
      var front, last := rounds[..|rounds| - 1], rounds[|rounds| - 1];
      Timeline(tracker, started, front);
      TimedOneMore(Loops(Launch(tracker, started), front), started, front, last);
      assert rounds == front + [last];
    }
  }

  /** The failures in a row since an election last led, this one's included. */
  function Streak(rounds: seq<Round>): nat {
    if rounds == [] then 0
    else
      var last := rounds[|rounds| - 1];
      if last.ElectionError? && last.led then 1 else Streak(rounds[..|rounds| - 1]) + 1
  }

  /** Nominal seconds of the backoff after n failures in a row. */
  function NominalSeconds(n: nat): nat {
    if n <= 4 then Pow2(n) else 30
  }

  /** A backoff within a fifth of its nominal length. */
  predicate Near(wait: int, n: nat) {
    800_000_000 * NominalSeconds(n) <= wait < 1_200_000_000 * NominalSeconds(n)
  }

  ghost predicate WaitsFollowStreaks(l: Loop, rounds: seq<Round>) {
    && |l.waits| <= |rounds|
    && (forall i | 0 <= i < |l.waits| :: Near(l.waits[i], Streak(rounds[..i + 1])))
    && (l.end.Running? ==>
          |l.waits| == |rounds| && l.tracker.state.Closed? && l.tracker.retryCount == Streak(rounds))
  }

  lemma WaitOfTurn(l: Loop, r: Round, n: nat)
    requires l.end.Running? && l.tracker.state.Closed? && l.tracker.retryCount == n
    requires r.ElectionError? && !r.cancelled && r.lag <= COOLDOWN
    ensures var l', m := Turn(l, r), if r.led then 1 else n + 1;
      if l'.end.Running?
      then l'.tracker.state.Closed? && l'.tracker.retryCount == m
        && |l'.waits| == |l.waits| + 1 && l'.waits[..|l.waits|] == l.waits && Near(l'.waits[|l.waits|], m)
      else l'.waits == l.waits
  {
    hide Within, Backoff, BackoffSeconds;
    var now := l.clock + r.delay;
    var t := Check(Recorded(l.tracker, r.led, now), now + r.lag);
    BackoffBounds(t, r.jitter);
    BackoffSecondsDouble(t.retryCount);
  }

  lemma WaitsFollowOneMore(l: Loop, front: seq<Round>, last: Round)
    requires WaitsFollowStreaks(l, front)
    requires last.ElectionError? && !last.cancelled && last.lag <= COOLDOWN
    ensures WaitsFollowStreaks(Turn(l, last), front + [last])
  {
    hide Turn, Near;
    var n, rounds, l' := |front|, front + [last], Turn(l, last);
    assert rounds[..n] == front && rounds[..n + 1] == rounds;
    forall i | 0 <= i < |l.waits| ensures Near(l.waits[i], Streak(rounds[..i + 1])) {
      assert front[..i + 1] == rounds[..i + 1];
    }
    if l.end.Running? {
      WaitOfTurn(l, last, Streak(front));
      assert forall i | 0 <= i < n :: l'.waits[i] == l'.waits[..n][i];
    } else {
      EndedTurn(l, last);
    }
  }

  /** In every run from a closed tracker without retries whose checks come in time, each backoff is within a
      fifth of 2, 4, 8, 16, 30, 30, ... seconds for that many failures in a row since an election led: it
      doubles with each failure, and after an election that led it is back at two seconds. */
  lemma {:induction false} BackoffsFollowStreaks(tracker: Tracker, started: int, rounds: seq<Round>)
    requires tracker.state.Closed? && tracker.retryCount == 0 && Prompt(rounds)
    ensures WaitsFollowStreaks(Loops(Launch(tracker, started), rounds), rounds)
  {
    if rounds == [] {
    } else {
      hide Turn, WaitsFollowStreaks;
      var front, last := rounds[..|rounds| - 1], rounds[|rounds| - 1];
      BackoffsFollowStreaks(tracker, started, front);
      WaitsFollowOneMore(Loops(Launch(tracker, started), front), front, last);
      assert front + [last] == rounds;
    }
  }

  /** A round that led, whatever retries came before it, is followed by a backoff of two seconds give or take
      a fifth, or by the end of the loop. */
  lemma LedRoundWaitsTwoSeconds(l: Loop, r: Round)
    requires l.end.Running? && !l.tracker.state.Open? && r.ElectionError? && r.led
    ensures var l' := Turn(l, r);
      if l'.end.BreakerOpen? then l'.waits == l.waits
      else |l'.waits| == |l.waits| + 1 && 1_600_000_000 <= l'.waits[|l.waits|] < 2_400_000_000
  {
    hide Within, Backoff, BackoffSeconds;
    var now := l.clock + r.delay;
    var t := Check(Recorded(l.tracker, r.led, now), now + r.lag);
    BackoffBounds(t, r.jitter);
    BackoffSecondsDouble(t.retryCount);
    assert Pow2(1) == 2;
  }

  // ---------- when the loop exits ----------

  /** A failure reaches the end of the loop exactly when it trips the breaker and the breaker is
      asked before its cooldown is over; asked later it is half-open and the election is restarted,
      although the exit has been set off. */
  lemma ExitsIff(l: Loop, r: Round)
    requires l.end.Running? && l.tracker.state.Closed? && r.ElectionError?
    ensures var trips := |Recorded(l.tracker, r.led, l.clock + r.delay).failures| >= FAILURE_THRESHOLD;
      var l' := Turn(l, r);
      && (l'.end.BreakerOpen? <==> trips && r.lag <= COOLDOWN)
      && (l'.tracker.state.HalfOpen? <==> trips && r.lag > COOLDOWN)
      && (l'.tracker.exits == l.tracker.exits + (if trips then [l.clock + r.delay] else []))
  {
    hide Within, Backoff;
  }

  /** Every round is an election error whose breaker check comes in time. */
  ghost predicate Prompt(rounds: seq<Round>) {
    forall i | 0 <= i < |rounds| :: rounds[i].ElectionError? && !rounds[i].cancelled && rounds[i].lag <= COOLDOWN
  }

  /** The loop while it has followed `Prompt` rounds from a fresh tracker: the tracker holds the pruned
      failures, it runs while none is tight, and it exits at the first that is. */
  ghost predicate InStep(l: Loop) {
    && l.tracker.failures == Pruned(l.failures)
    && Ordered(l.failures)
    && (forall f | f in l.failures :: f <= l.clock)
    && (forall k | 0 <= k < |l.failures| - 1 :: !Tight(l.failures, k))
    && (l.end.Running? || l.end.BreakerOpen?)
    && (l.end.Running? ==> l.tracker.state.Closed? && !Tight(l.failures, |l.failures| - 1))
    && (l.end.BreakerOpen? ==> Tight(l.failures, |l.failures| - 1))
  }

  /** Recording a failure keeps the pruned history and counts ten exactly when it is tight. */
  lemma CountedIffTight(failures: seq<int>, now: int)
    requires Ordered(failures) && forall f | f in failures :: f <= now
    ensures Ordered(failures + [now])
    ensures var kept := Within(Pruned(failures) + [now], now - WINDOW);
      kept == Pruned(failures + [now]) && (|kept| >= FAILURE_THRESHOLD <==> Tight(failures + [now], |failures|))
  {
    hide Within, Pruned;
    var h := failures + [now];
    assert forall i | 0 <= i < |failures| :: failures[i] in failures;
    PrunedSnoc(failures, now);
    PrunedNonempty(h);
    WithinCount(h, now - WINDOW, FAILURE_THRESHOLD);
  }

  lemma TurnInStep(l: Loop, r: Round)
    requires InStep(l) && l.end.Running?
    requires r.ElectionError? && !r.cancelled && r.lag <= COOLDOWN
    ensures InStep(Turn(l, r)) && Turn(l, r).failures == l.failures + [l.clock + r.delay]
  {
    hide Within, Pruned, Backoff, BackoffSeconds, Ordered, Tight;
    var now := l.clock + r.delay;
    CountedIffTight(l.failures, now);
    var t := Check(Recorded(l.tracker, r.led, now), now + r.lag);
    BackoffBounds(t, r.jitter);
    forall k | 0 <= k < |l.failures| ensures Tight(l.failures + [now], k) == Tight(l.failures, k) {
      TightPrefix(l.failures, now, k);
    }
  }

  /** The failures are those of the rounds: one for each round until the loop exits, recorded when the
      round's error arrives, and the rounds after an exit change nothing. */
  ghost predicate FollowsRounds(l: Loop, launch: Loop, rounds: seq<Round>) {
    && |l.failures| <= |rounds|
    && (l.end.Running? ==> |l.failures| == |rounds|)
    && l == Loops(launch, rounds[..|l.failures|])
    && forall i | 0 <= i < |l.failures| :: FailedInRound(l, launch, rounds, i)
  }

  ghost predicate FailedInRound(l: Loop, launch: Loop, rounds: seq<Round>, i: nat)
    requires i < |l.failures| && i < |rounds|
  {
    rounds[i].ElectionError? && l.failures[i] == Loops(launch, rounds[..i]).clock + rounds[i].delay
  }

  lemma FollowsOneMore(l: Loop, launch: Loop, rounds: seq<Round>)
    requires rounds != [] && rounds[|rounds| - 1].ElectionError?
    requires l == Loops(launch, rounds[..|rounds| - 1]) && FollowsRounds(l, launch, rounds[..|rounds| - 1])
    requires var l' := Loops(launch, rounds);
      if l.end.Running? then l'.failures == l.failures + [l.clock + rounds[|rounds| - 1].delay] else l' == l
    ensures FollowsRounds(Loops(launch, rounds), launch, rounds)
  {
    hide Loops;
    var front, l' := rounds[..|rounds| - 1], Loops(launch, rounds);
    assert rounds[..|rounds|] == rounds;
    assert front[..|l.failures|] == rounds[..|l.failures|];
    forall i | 0 <= i < |l'.failures| ensures FailedInRound(l', launch, rounds, i) {
      if i < |l.failures| {
        assert FailedInRound(l, launch, front, i);
        assert front[..i] == rounds[..i];
      }
    }
  }

  lemma NotStarted(started: int)
    ensures InStep(Launch(Fresh(), started))
    ensures FollowsRounds(Launch(Fresh(), started), Launch(Fresh(), started), [])
  {
    PrunedNil();
  }

  /** From a fresh tracker Start records one failure for each round, as its error arrives, and exits at
      exactly the first of them that completes ten in less than five minutes; it goes on for as long as
      there is none, whatever elections succeed in between. */
  lemma {:induction false} ExitsAtFirstTight(started: int, rounds: seq<Round>)
    requires Prompt(rounds)
    ensures InStep(Loops(Launch(Fresh(), started), rounds))
    ensures FollowsRounds(Loops(Launch(Fresh(), started), rounds), Launch(Fresh(), started), rounds)
  {
    hide InStep, Turn, FollowsRounds;
    var launch := Launch(Fresh(), started);
    if rounds == [] {
      NotStarted(started);
    } else {
      var front, last := rounds[..|rounds| - 1], rounds[|rounds| - 1];
      ExitsAtFirstTight(started, front);
      var l := Loops(launch, front);
      if l.end.Running? {
        TurnInStep(l, last);
      } else {
        EndedTurn(l, last);
      }
      FollowsOneMore(l, launch, rounds);
    }
  }

  lemma EndedTurn(l: Loop, r: Round)
    requires !l.end.Running?
    ensures Turn(l, r) == l
  {
  }

  /** Successive failures are at least a ninth of the window apart. */
  ghost predicate Spaced(h: seq<int>) {
    forall k | 0 < k < |h| :: 9 * (h[k] - h[k - 1]) >= WINDOW
  }

  lemma SpacedTurn(l: Loop, r: Round)
    requires InStep(l) && l.end.Running? && Spaced(l.failures)
    requires r.ElectionError? && !r.cancelled && r.lag <= COOLDOWN
    requires l.failures != [] ==> 9 * r.delay >= WINDOW
    ensures Turn(l, r).end.Running? && Spaced(Turn(l, r).failures) && |Turn(l, r).failures| == |l.failures| + 1
  {
    TurnInStep(l, r);
    hide Turn, Pruned, Within, Tight;
    if l.failures != [] {
      assert l.failures[|l.failures| - 1] in l.failures;
    }
    SpacedNotTight(Turn(l, r).failures);
  }

  /** Elections that each last a ninth of the window keep the loop going for ever. */
  lemma {:induction false} SlowElectionsNeverExit(started: int, rounds: seq<Round>)
    requires Prompt(rounds) && forall i | 0 < i < |rounds| :: 9 * rounds[i].delay >= WINDOW
    ensures var l := Loops(Launch(Fresh(), started), rounds);
      l.end.Running? && |l.failures| == |rounds| && Spaced(l.failures)
  {
    if rounds == [] {
    } else {
      hide Turn, InStep, Spaced;
      var front, last := rounds[..|rounds| - 1], rounds[|rounds| - 1];
      SlowElectionsNeverExit(started, front);
      ExitsAtFirstTight(started, front);
      SpacedTurn(Loops(Launch(Fresh(), started), front), last);
    }
  }

  lemma SpacedNotTight(h: seq<int>)
    requires Spaced(h)
    ensures forall k :: !Tight(h, k)
  {
    forall k | 9 <= k < |h| ensures h[k] - h[k - 9] >= WINDOW {
      assert 9 * (h[k] - h[k - 1]) >= WINDOW && 9 * (h[k - 1] - h[k - 2]) >= WINDOW
        && 9 * (h[k - 2] - h[k - 3]) >= WINDOW;
      assert 9 * (h[k - 3] - h[k - 4]) >= WINDOW && 9 * (h[k - 4] - h[k - 5]) >= WINDOW
        && 9 * (h[k - 5] - h[k - 6]) >= WINDOW;
      assert 9 * (h[k - 6] - h[k - 7]) >= WINDOW && 9 * (h[k - 7] - h[k - 8]) >= WINDOW
        && 9 * (h[k - 8] - h[k - 9]) >= WINDOW;
    }
  }

  // ---------- the timing bound ----------

  /** The error of every relaunched election reaches the breaker less than 28/3 seconds after the
      backoff before it ended. */
  ghost predicate Brisk(rounds: seq<Round>) {
    Prompt(rounds) && forall i | 0 < i < |rounds| :: 3 * (rounds[i - 1].lag + rounds[i].delay) < 28 * SECOND
  }

  /** The sum of the first k backoffs before jitter, in seconds. */
  function TotalSeconds(k: nat): int {
    if k == 0 then 0 else TotalSeconds(k - 1) + BackoffSeconds(k)
  }

  lemma NineWaits()
    ensures TotalSeconds(9) == 180
  {
    assert Scaled(1, 1) == 2 && Scaled(1, 2) == 4;
    assert Scaled(1, 3) == 8 && Scaled(1, 4) == 16;
    assert Scaled(1, 5) == 32;
    assert forall k: nat | k >= 5 :: BackoffSeconds(k) == 30 by {
      forall k: nat | k >= 5 ensures BackoffSeconds(k) == 30 { ScaledMonotone(1, 5, k); }
    }
    assert TotalSeconds(2) == 6 && TotalSeconds(4) == 30;
    assert TotalSeconds(6) == 90 && TotalSeconds(8) == 150;
  }

  lemma {:induction false} TotalSecondsMonotone(m: nat, n: nat)
    requires m <= n
    ensures 0 <= TotalSeconds(m) <= TotalSeconds(n)
  {
    if n == 0 {
    } else {
      ScaledMonotone(1, 0, n);
      TotalSecondsMonotone(if m < n then m else m - 1, n - 1);
      ScaledMonotone(1, 0, m);
    }
  }

  lemma {:induction false} WithinConcat(a: seq<int>, b: seq<int>, cutoff: int)
    ensures Within(a + b, cutoff) == Within(a, cutoff) + Within(b, cutoff)
  {
    if b == [] {
      assert a + b == a;
    } else {
      var front, last := b[..|b| - 1], b[|b| - 1];
      WithinConcat(a, front, cutoff);
      WithinSnoc(a + front, last, cutoff);
      assert a + b == (a + front) + [last];
    }
  }

  lemma {:induction false} WithinAll(times: seq<int>, cutoff: int)
    requires forall i | 0 <= i < |times| :: times[i] > cutoff
    ensures Within(times, cutoff) == times
  {
    if times == [] {
    } else {
      var front, last := times[..|times| - 1], times[|times| - 1];
      WithinAll(front, cutoff);
      assert times == front + [last];
    }
  }

  /** The loop after k failures without an exit: the tracker still holds all of them, it has retried at
      most k times, and the clock is one backoff past the last of them. */
  ghost predicate Retrying(l: Loop, k: nat, lag: nat) {
    && l.end.Running? && l.tracker.state.Closed? && l.tracker.retryCount <= k && |l.failures| == k
    && (exists older: seq<int> :: l.tracker.failures == older + l.failures)
    && (k > 0 ==>
          && 3 * (l.failures[k - 1] - l.failures[0]) <= 3_600_000_000 * TotalSeconds(k - 1) + 28 * SECOND * (k - 1)
          && l.clock - lag - l.failures[k - 1] < 1_200_000_000 * BackoffSeconds(k))
    && (forall f | f in l.failures :: l.failures[0] <= f <= l.clock)
  }

  /** The tenth failure at the latest falls into the window of the first. */
  lemma StillInWindow(l: Loop, k: nat, lag: nat, delay: nat)
    requires Retrying(l, k, lag) && 0 < k <= 9 && 3 * (lag + delay) < 28 * SECOND
    ensures var now := l.clock + delay;
      && 3 * (now - l.failures[0]) <= 3_600_000_000 * TotalSeconds(k) + 28 * SECOND * k
      && now - l.failures[0] < WINDOW
  {
    hide TotalSeconds, BackoffSeconds;
    assert TotalSeconds(k) == TotalSeconds(k - 1) + BackoffSeconds(k) by { TotalSecondsStep(k); }
    NineWaits();
    TotalSecondsMonotone(k, 9);
  }

  lemma TotalSecondsStep(k: nat)
    requires k > 0
    ensures TotalSeconds(k) == TotalSeconds(k - 1) + BackoffSeconds(k)
  {
  }

  lemma KeptAll(failures: seq<int>, older: seq<int>, recent: seq<int>, now: int)
    requires failures == older + recent
    requires forall f | f in recent :: f > now - WINDOW
    ensures Within(failures + [now], now - WINDOW) == Within(older, now - WINDOW) + (recent + [now])
  {
    hide Within;
    assert failures + [now] == older + (recent + [now]);
    assert forall i | 0 <= i < |recent| :: recent[i] in recent;
    WithinConcat(older, recent + [now], now - WINDOW);
    WithinAll(recent + [now], now - WINDOW);
  }

  /** One more failure: the loop exits, or goes on retrying; the tenth makes it exit. */
  lemma BriskTurn(l: Loop, k: nat, lag: nat, r: Round)
    requires Retrying(l, k, lag) && k <= 9
    requires r.ElectionError? && !r.cancelled && r.lag <= COOLDOWN
    requires k > 0 ==> 3 * (lag + r.delay) < 28 * SECOND
    ensures var l' := Turn(l, r);
      && |l'.failures| == k + 1
      && (l'.end.BreakerOpen? || (k < 9 && Retrying(l', k + 1, r.lag)))
  {
    hide Within, Backoff, BackoffSeconds, TotalSeconds;
    var now := l.clock + r.delay;
    if k > 0 {
      StillInWindow(l, k, lag, r.delay);
    }
    var older: seq<int> :| l.tracker.failures == older + l.failures;
    KeptAll(l.tracker.failures, older, l.failures, now);
    var t := Check(Recorded(l.tracker, r.led, now), now + r.lag);
    var l' := Turn(l, r);
    BackoffBounds(t, r.jitter);
    BackoffSecondsMonotone(t.retryCount, k + 1);
    if !l'.end.BreakerOpen? {
      TotalZero();
      assert l'.tracker.failures == Within(older, now - WINDOW) + l'.failures;
      assert l'.tracker.retryCount <= k + 1;
      assert k < 9;
      assert l'.clock - r.lag - l'.failures[k] < 1_200_000_000 * BackoffSeconds(k + 1);
      assert 3 * (l'.failures[k] - l'.failures[0]) <= 3_600_000_000 * TotalSeconds(k) + 28 * SECOND * k;
      assert now <= l'.clock;
      assert l'.failures[0] <= now by {
        if k > 0 { assert l.failures[0] in l.failures; }
      }
      assert forall f | f in l'.failures :: f == now || (f in l.failures && l'.failures[0] == l.failures[0]);
    }
  }

  lemma TotalZero()
    ensures TotalSeconds(0) == 0
  {
  }

  /** The restart loop gives up: from any closed tracker whose retry count is zero, whatever failures
      it already holds and whatever elections succeed in between, Start exits at the tenth failure or
      earlier, because the nine backoffs total less than 216 of the 300 seconds. */
  lemma {:induction false} GivesUp(tracker: Tracker, started: int, rounds: seq<Round>)
    requires tracker.state.Closed? && tracker.retryCount == 0 && Brisk(rounds)
    ensures var l := Loops(Launch(tracker, started), rounds);
      && |l.failures| <= 10
      && (|| l.end.BreakerOpen?
          || (|rounds| < 10 && Retrying(l, |rounds|, if rounds == [] then 0 else rounds[|rounds| - 1].lag)))
  {
    var launch := Launch(tracker, started);
    if rounds == [] {
      assert tracker.failures == tracker.failures + [];
    } else {
      hide Retrying, Turn;
      var front, last := rounds[..|rounds| - 1], rounds[|rounds| - 1];
      GivesUp(tracker, started, front);
      var l := Loops(launch, front);
      if l.end.BreakerOpen? {
        EndedTurn(l, last);
      } else {
        BriskTurn(l, |front|, if front == [] then 0 else front[|front| - 1].lag, last);
      }
    }
  }

  /** A loop that started fresh and recorded no success: it holds its failures and nothing else, and the
      backoffs were at least four fifths of their nominal length. */
  ghost predicate FreshlyRetrying(l: Loop, k: nat) {
    && l.end.Running? && l.tracker.state.Closed? && l.tracker.retryCount == k && |l.failures| == k
    && |l.tracker.failures| <= k
    && (k > 0 ==>
          && l.failures[k - 1] - l.failures[0] >= 800_000_000 * TotalSeconds(k - 1)
          && l.clock - l.failures[k - 1] >= 800_000_000 * BackoffSeconds(k))
  }

  lemma FreshTurn(l: Loop, k: nat, r: Round)
    requires FreshlyRetrying(l, k) && r.ElectionError? && !r.cancelled && !r.led
    ensures var l' := Turn(l, r);
      && |l'.failures| == k + 1
      && l'.failures[k] - l'.failures[0] >= 800_000_000 * TotalSeconds(k)
      && (k < 9 ==> FreshlyRetrying(l', k + 1))
  {
    hide Within, Backoff, BackoffSeconds, TotalSeconds;
    var now := l.clock + r.delay;
    WithinBounds(l.tracker.failures + [now], now - WINDOW);
    var t := Check(Recorded(l.tracker, r.led, now), now + r.lag);
    BackoffBounds(t, r.jitter);
    TotalZero();
    if k > 0 {
      TotalSecondsStep(k);
    }
  }

  lemma {:induction false} NoEarlyExit(started: int, rounds: seq<Round>)
    requires |rounds| <= 9
    requires forall i | 0 <= i < |rounds| :: rounds[i].ElectionError? && !rounds[i].cancelled && !rounds[i].led
    ensures FreshlyRetrying(Loops(Launch(Fresh(), started), rounds), |rounds|)
  {
    if rounds == [] {
    } else {
      hide FreshlyRetrying, Turn;
      NoEarlyExit(started, rounds[..|rounds| - 1]);
      FreshTurn(Loops(Launch(Fresh(), started), rounds[..|rounds| - 1]), |rounds| - 1, rounds[|rounds| - 1]);
    }
  }

  /** From a fresh tracker with no success it takes exactly ten failures, and the tenth comes at least
      144 seconds after the first. */
  lemma ExactlyTenFailures(started: int, rounds: seq<Round>)
    requires |rounds| >= 10 && Brisk(rounds) && forall i | 0 <= i < |rounds| :: !rounds[i].led
    ensures var l := Loops(Launch(Fresh(), started), rounds);
      && l.end.BreakerOpen?
      && |l.failures| == 10
      && l.failures[9] - l.failures[0] >= 144 * SECOND
  {
    hide FreshlyRetrying, Turn, TotalSeconds, Loops, Retrying;
    var launch := Launch(Fresh(), started);
    NoEarlyExit(started, rounds[..9]);
    LoopsSnoc(launch, rounds, 9);
    FreshTurn(Loops(launch, rounds[..9]), 9, rounds[9]);
    NineWaits();
    GivesUp(Fresh(), started, rounds[..10]);
    EndedStays(launch, rounds, 10);
  }
}

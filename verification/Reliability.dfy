/** The circuit breaker and backoff of pkg/kubernetes/reliability.go. Times are nanoseconds and are
    passed in where the Go code reads the clock; jitter is the factor the random generator yields. */
module Reliability {
  import opened Base

  const SECOND: int := 1_000_000_000
  const MAX_BACKOFF_SECONDS: int := 30
  const FAILURE_THRESHOLD: int := 10
  const WINDOW: int := 300 * SECOND
  const COOLDOWN: int := 60 * SECOND

  datatype CircuitState = Closed | Open | HalfOpen

  /** The fields of a tracker; `exits` are the times at which it has set off the exit function. */
  datatype Tracker = Tracker(retryCount: nat, state: CircuitState, failures: seq<int>, trippedAt: int, exits: seq<int>)

  type Jitter = j: real | 0.8 <= j < 1.2 witness 1.0

  function Fresh(): Tracker {
    Tracker(0, Closed, [], 0, [])
  }

  /** The times after the cutoff. */
  function Within(times: seq<int>, cutoff: int): seq<int> {
    if times == [] then []
    else
      var last := times[|times| - 1];
      Within(times[..|times| - 1], cutoff) + (if last > cutoff then [last] else [])
  }

  function Fail(t: Tracker, now: int): Tracker {
    var kept := Within(t.failures + [now], now - WINDOW);
    var retries := if t.state.Closed? then t.retryCount + 1 else t.retryCount;
    if t.state.Closed? && |kept| >= FAILURE_THRESHOLD then Tracker(retries, Open, kept, now, t.exits + [now])
    else t.(retryCount := retries, failures := kept)
  }

  function Succeed(t: Tracker): Tracker {
    if t.state.HalfOpen? then t.(retryCount := 0, state := Closed, failures := []) else t.(retryCount := 0)
  }

  /** IsCircuitOpen: an open breaker becomes half-open once the cooldown has passed. */
  function Check(t: Tracker, now: int): Tracker {
    if t.state.Open? && now - t.trippedAt > COOLDOWN then t.(state := HalfOpen) else t
  }

  function BackoffSeconds(retryCount: nat): int {
    if Scaled(1, retryCount) > MAX_BACKOFF_SECONDS then MAX_BACKOFF_SECONDS else Scaled(1, retryCount)
  }

  function Backoff(t: Tracker, jitter: Jitter): int {
    (BackoffSeconds(t.retryCount) as real * jitter * SECOND as real).Floor
  }

  class ReliabilityTracker {
    var retryCount: nat
    var state: CircuitState
    var failures: seq<int>
    var trippedAt: int
    var exits: seq<int>

    constructor ()
      ensures View() == Fresh()
    {
      retryCount, state, failures, trippedAt, exits := 0, Closed, [], 0, [];
    }

    ghost function View(): Tracker
      reads this
    {
      Tracker(retryCount, state, failures, trippedAt, exits)
    }

    method RecordFailure(now: int)
      modifies this
      ensures View() == Fail(old(View()), now)
    {
      if state == Closed {
        retryCount := retryCount + 1;
      }
      failures := failures + [now];
      var cutoff := now - WINDOW;
      var newFailures := [];
      for i := 0 to |failures|
        invariant newFailures == Within(failures[..i], cutoff)
      {
        assert failures[..i + 1][..i] == failures[..i];
        if failures[i] > cutoff {
          newFailures := newFailures + [failures[i]];
        }
      }
      assert failures[..|failures|] == failures;
      failures := newFailures;
      if state == Closed && |failures| >= FAILURE_THRESHOLD {
        state := Open;
        trippedAt := now;
        exits := exits + [now];
      }
    }

    method RecordSuccess()
      modifies this
      ensures View() == Succeed(old(View()))
    {
      retryCount := 0;
      if state == HalfOpen {
        state := Closed;
        failures := [];
      }
    }

    method IsCircuitOpen(now: int) returns (open: bool)
      modifies this
      ensures View() == Check(old(View()), now) && open == View().state.Open?
    {
      if state == Open && now - trippedAt > COOLDOWN {
        state := HalfOpen;
      }
      open := state == Open;
    }

    method GetBackoffDuration(jitter: Jitter) returns (wait: int)
      ensures wait == Backoff(View(), jitter)
    {
      var seconds := Scaled(1, retryCount);
      if seconds > MAX_BACKOFF_SECONDS {
        seconds := MAX_BACKOFF_SECONDS;
      }
      wait := (seconds as real * jitter * SECOND as real).Floor;
    }
  }

  // ---------- backoff ----------

  /** The wait is within 20% of the capped power of two, to the nanosecond. */
  lemma {:induction false} BackoffBounds(t: Tracker, jitter: Jitter)
    ensures 800_000_000 * BackoffSeconds(t.retryCount) <= Backoff(t, jitter)
    ensures Backoff(t, jitter) < 1_200_000_000 * BackoffSeconds(t.retryCount)
    ensures 1 <= BackoffSeconds(t.retryCount) <= MAX_BACKOFF_SECONDS
  {
    ScaledMonotone(1, 0, t.retryCount);
    var s := BackoffSeconds(t.retryCount) as real;
    var lo, hi := s * (jitter - 0.8), s * (1.2 - jitter);
    ProductNonnegative(s, jitter - 0.8);
    ProductNonnegative(s - 1.0, 1.2 - jitter);
    assert hi == (s - 1.0) * (1.2 - jitter) + (1.2 - jitter);
    var x := s * jitter * SECOND as real;
    assert s * jitter == 0.8 * s + lo && s * jitter == 1.2 * s - hi;
    assert x == 800_000_000.0 * s + lo * 1_000_000_000.0;
    assert x == 1_200_000_000.0 * s - hi * 1_000_000_000.0;
    assert x >= (800_000_000 * BackoffSeconds(t.retryCount)) as real;
    assert x < (1_200_000_000 * BackoffSeconds(t.retryCount)) as real;
  }

  /** Doubling from one second, cut to half a minute. */
  lemma {:induction false} BackoffSecondsDouble(n: nat)
    ensures BackoffSeconds(n) == if n <= 4 then Pow2(n) else 30
  {
    ScaledIsPower(1, n);
    if n > 4 {
      assert Scaled(1, 3) == 8 && Scaled(1, 5) == 32;
      ScaledMonotone(1, 5, n);
    } else {
      assert Pow2(2) == 4 && Pow2(3) == 8 && Pow2(4) == 16;
    }
  }

  /** The jitter stretches the seconds, rounded down to the nanosecond. */
  lemma BackoffExactly(t: Tracker, jitter: Jitter)
    ensures var seconds := if t.retryCount <= 4 then Pow2(t.retryCount) else 30;
      Backoff(t, jitter) as real <= seconds as real * jitter * 1_000_000_000.0 < (Backoff(t, jitter) + 1) as real
  {
    hide BackoffSeconds;
    BackoffSecondsDouble(t.retryCount);
  }

  lemma {:induction false} BackoffSecondsMonotone(m: nat, n: nat)
    requires m <= n
    ensures BackoffSeconds(m) <= BackoffSeconds(n)
  {
    ScaledMonotone(1, m, n);
  }

  // ---------- the window ----------

  ghost predicate Ordered(times: seq<int>) {
    forall i, j | 0 <= i < j < |times| :: times[i] <= times[j]
  }

  lemma WithinSnoc(times: seq<int>, now: int, cutoff: int)
    ensures Within(times + [now], cutoff) == Within(times, cutoff) + (if now > cutoff then [now] else [])
  {
    assert (times + [now])[..|times|] == times;
  }

  /** Pruning twice is pruning once with the later cutoff. */
  lemma {:induction false} WithinTwice(times: seq<int>, early: int, late: int)
    requires early <= late
    ensures Within(Within(times, early), late) == Within(times, late)
  {
    if times == [] {
    } else {
      var front, last := times[..|times| - 1], times[|times| - 1];
      WithinTwice(front, early, late);
      WithinSnoc(Within(front, early), last, late);
      assert Within(front, early) + [] == Within(front, early);
      assert Within(front, late) + [] == Within(front, late);
    }
  }

  lemma {:induction false} WithinNone(times: seq<int>, cutoff: int)
    requires forall i | 0 <= i < |times| :: times[i] <= cutoff
    ensures Within(times, cutoff) == []
  {
    if times == [] {
    } else {
      WithinNone(times[..|times| - 1], cutoff);
    }
  }

  /** In an ordered history at least n times are after the cutoff iff the n-th from the end is. */
  lemma {:induction false} WithinCount(times: seq<int>, cutoff: int, n: nat)
    requires Ordered(times) && n >= 1
    ensures |Within(times, cutoff)| >= n <==> |times| >= n && times[|times| - n] > cutoff
  {
    if times == [] {
    } else {
      var front, last := times[..|times| - 1], times[|times| - 1];
      if last <= cutoff {
        WithinNone(times, cutoff);
      } else if n > 1 {
        WithinCount(front, cutoff, n - 1);
      }
    }
  }

  lemma {:induction false} WithinBounds(times: seq<int>, cutoff: int)
    ensures |Within(times, cutoff)| <= |times|
  {
    if times == [] {
    } else {
      WithinBounds(times[..|times| - 1], cutoff);
    }
  }

  // ---------- runs ----------

  datatype TrackerOp = RecordFailure(now: int) | RecordSuccess | IsCircuitOpen(now: int)

  function Do(t: Tracker, op: TrackerOp): Tracker {
    match op
    case RecordFailure(now) => Fail(t, now)
    case RecordSuccess => Succeed(t)
    case IsCircuitOpen(now) => Check(t, now)
  }

  function RunOps(ops: seq<TrackerOp>): Tracker {
    if ops == [] then Fresh() else Do(RunOps(ops[..|ops| - 1]), ops[|ops| - 1])
  }

  /** All failure times since the last half-open reset, unpruned. */
  function History(ops: seq<TrackerOp>): seq<int> {
    if ops == [] then []
    else
      var front, last := ops[..|ops| - 1], ops[|ops| - 1];
      match last
      case RecordFailure(now) => History(front) + [now]
      case RecordSuccess => if RunOps(front).state.HalfOpen? then [] else History(front)
      case IsCircuitOpen(_) => History(front)
  }

  /** The clock that successive failures read does not go back. */
  ghost predicate Clocked(ops: seq<TrackerOp>) {
    forall i, j | 0 <= i < j < |ops| && ops[i].RecordFailure? && ops[j].RecordFailure? :: ops[i].now <= ops[j].now
  }

  lemma {:induction false} HistoryFromOps(ops: seq<TrackerOp>, h: int)
    requires h in History(ops)
    ensures exists i | 0 <= i < |ops| :: ops[i] == RecordFailure(h)
  {
    var front, last := ops[..|ops| - 1], ops[|ops| - 1];
    if last == RecordFailure(h) {
    } else {
      HistoryFromOps(front, h);
      var i :| 0 <= i < |front| && front[i] == RecordFailure(h);
      assert ops[i] == RecordFailure(h);
    }
  }

  lemma {:induction false} HistoryOrdered(ops: seq<TrackerOp>)
    requires Clocked(ops)
    ensures Ordered(History(ops))
  {
    if ops == [] {
    } else {
      var front := ops[..|ops| - 1];
      ClockedFront(ops);
      HistoryOrdered(front);
      assert forall k | 0 <= k < |History(front)| :: History(front)[k] in History(front);
    }
  }

  lemma ClockedFront(ops: seq<TrackerOp>)
    requires Clocked(ops) && ops != []
    ensures var front, last := ops[..|ops| - 1], ops[|ops| - 1];
      Clocked(front) && (last.RecordFailure? ==> forall h | h in History(front) :: h <= last.now)
  {
    var front, last := ops[..|ops| - 1], ops[|ops| - 1];
    if last.RecordFailure? {
      forall h | h in History(front) ensures h <= last.now {
        HistoryFromOps(front, h);
      }
    }
  }

  /** What the list holds when the unpruned history is `h`. */
  function Pruned(h: seq<int>): seq<int> {
    if h == [] then [] else Within(h, h[|h| - 1] - WINDOW)
  }

  lemma PrunedSnoc(h: seq<int>, now: int)
    requires forall t | t in h :: t <= now
    ensures Pruned(h + [now]) == Within(Pruned(h) + [now], now - WINDOW)
  {
    hide Within;
    WithinSnoc(h, now, now - WINDOW);
    WithinSnoc(Pruned(h), now, now - WINDOW);
    if h != [] {
      assert h[|h| - 1] in h;
      WithinTwice(h, h[|h| - 1] - WINDOW, now - WINDOW);
    }
  }

  /** Sliding-window refinement: the incrementally pruned list is the unpruned history since the last
      reset, cut to the window that ends at the last failure, in every run. */
  lemma {:induction false} SlidingWindow(ops: seq<TrackerOp>)
    requires Clocked(ops)
    ensures RunOps(ops).failures == Pruned(History(ops))
  {
    hide Pruned, Within, Clocked;
    if ops == [] {
      assert Pruned([]) == [] by { PrunedNil(); }
    } else {
      var front, last := ops[..|ops| - 1], ops[|ops| - 1];
      ClockedFront(ops);
      SlidingWindow(front);
      PrunedNil();
      if last.RecordFailure? {
        PrunedSnoc(History(front), last.now);
      }
    }
  }

  lemma PrunedNil()
    ensures Pruned([]) == []
  {
  }

  // ---------- the breaker ----------

  /** The k-th failure completes ten failures in less than 300 seconds. */
  predicate Tight(h: seq<int>, k: int) {
    9 <= k < |h| && h[k] - h[k - 9] < 300_000_000_000
  }

  ghost predicate FirstTight(h: seq<int>, k: int) {
    Tight(h, k) && forall j | 0 <= j < k :: !Tight(h, j)
  }

  lemma TightPrefix(h: seq<int>, now: int, k: int)
    requires k < |h|
    ensures Tight(h + [now], k) == Tight(h, k)
  {
  }

  /** One failure trips a closed breaker exactly when it is tight in the history. */
  lemma TripsIffTight(ops: seq<TrackerOp>, now: int)
    requires Clocked(ops + [RecordFailure(now)]) && RunOps(ops).state.Closed?
    ensures Fail(RunOps(ops), now).state.Open? <==> Tight(History(ops) + [now], |History(ops)|)
  {
    hide Within, Clocked, Ordered, Pruned;
    var more := ops + [RecordFailure(now)];
    assert more[..|ops|] == ops;
    var h := History(ops) + [now];
    assert History(more) == h;
    ClockedFront(more);
    SlidingWindow(ops);
    PrunedSnoc(History(ops), now);
    HistoryOrdered(more);
    WithinCount(h, now - WINDOW, FAILURE_THRESHOLD);
    PrunedNonempty(h);
  }

  lemma PrunedNonempty(h: seq<int>)
    requires h != []
    ensures Pruned(h) == Within(h, h[|h| - 1] - WINDOW)
  {
  }

  /** The breaker is closed exactly as long as no failure of the history is tight, and otherwise it
      tripped, and set off the exit, at the first that is. */
  ghost predicate Characterised(t: Tracker, h: seq<int>) {
    && (t.state.Closed? <==> forall k | 0 <= k < |h| :: !Tight(h, k))
    && (!t.state.Closed? ==> exists k | 0 <= k < |h| :: FirstTight(h, k) && TrippedAt(t, h[k]))
  }

  predicate TrippedAt(t: Tracker, at: int) {
    t.trippedAt == at && t.exits != [] && t.exits[|t.exits| - 1] == at
  }

  lemma FailureKeepsCharacterisation(t: Tracker, h: seq<int>, now: int)
    requires Characterised(t, h)
    requires t.state.Closed? ==> (Fail(t, now).state.Open? <==> Tight(h + [now], |h|))
    ensures Characterised(Fail(t, now), h + [now])
  {
    hide Within, Tight;
    var more := h + [now];
    forall k | 0 <= k < |h| ensures Tight(more, k) == Tight(h, k) { TightPrefix(h, now, k); }
    if t.state.Closed? {
      if Tight(more, |h|) {
        assert FirstTight(more, |h|) && TrippedAt(Fail(t, now), more[|h|]);
      }
    } else {
      var k :| 0 <= k < |h| && FirstTight(h, k) && TrippedAt(t, h[k]);
      assert FirstTight(more, k) && TrippedAt(Fail(t, now), more[k]);
    }
  }

  /** Exact trip characterisation, for every run and any interleaving with successes and checks. */
  lemma {:induction false} TripsAtFirstTight(ops: seq<TrackerOp>)
    requires Clocked(ops)
    ensures Characterised(RunOps(ops), History(ops))
  {
    if ops == [] {
    } else {
      hide Clocked, Within, Characterised, Tight;
      var front, last := ops[..|ops| - 1], ops[|ops| - 1];
      ClockedFront(ops);
      TripsAtFirstTight(front);
      if last.RecordFailure? {
        assert ops == front + [last];
        if RunOps(front).state.Closed? {
          TripsIffTight(front, last.now);
        }
        FailureKeepsCharacterisation(RunOps(front), History(front), last.now);
      } else {
        OthersKeepCharacterisation(RunOps(front), History(front), last);
      }
    }
  }

  lemma OthersKeepCharacterisation(t: Tracker, h: seq<int>, op: TrackerOp)
    requires Characterised(t, h) && !op.RecordFailure?
    ensures Characterised(Do(t, op), if op.RecordSuccess? && t.state.HalfOpen? then [] else h)
  {
    hide FirstTight;
  }

  /** Closed breakers store at most nine failures, so every trip happens with exactly ten. */
  lemma {:induction false} ClosedStoresFew(ops: seq<TrackerOp>)
    ensures RunOps(ops).state.Closed? ==> |RunOps(ops).failures| < FAILURE_THRESHOLD
  {
    if ops == [] {
    } else {
      ClosedStoresFew(ops[..|ops| - 1]);
    }
  }

  /** The transitions of a run, each with exactly what sets it off, and the exit along with the trip only. */
  lemma Transitions(ops: seq<TrackerOp>, op: TrackerOp)
    ensures var t, t' := RunOps(ops), Do(RunOps(ops), op);
      && (t.state.Closed? ==>
            if t'.state.Open?
            then op.RecordFailure? && |t'.failures| == 10 && t'.trippedAt == op.now && t'.exits == t.exits + [op.now]
            else t'.state.Closed? && t'.exits == t.exits)
      && (t.state.Open? ==>
            && t'.exits == t.exits
            && t'.state == if op.IsCircuitOpen? && op.now - t.trippedAt > 60_000_000_000 then HalfOpen else Open)
      && (t.state.HalfOpen? ==>
            && t'.exits == t.exits
            && (if op.RecordSuccess? then t'.state.Closed? && t'.failures == [] else t'.state.HalfOpen?))
  {
    ClosedStoresFew(ops);
    if op.RecordFailure? {
      WithinBounds(RunOps(ops).failures + [op.now], op.now - WINDOW);
    }
  }

  /** The failures recorded while the breaker was closed and after the last success. */
  ghost function FailuresSinceSuccess(ops: seq<TrackerOp>): set<int> {
    set i | 0 <= i < |ops|
      && ops[i].RecordFailure? && RunOps(ops[..i]).state.Closed?
      && forall j | i < j < |ops| :: !ops[j].RecordSuccess?
  }

  /** In every run the retry count is their number: a success resets it in whatever state it comes, and a
      failure counts only while the breaker is closed. */
  lemma {:induction false} RetryCountIsFailuresSinceSuccess(ops: seq<TrackerOp>)
    ensures RunOps(ops).retryCount == |FailuresSinceSuccess(ops)|
  {
    if ops == [] {
      assert FailuresSinceSuccess(ops) == {};
    } else {
      hide FailuresSinceSuccess, Within;
      var front, last := ops[..|ops| - 1], ops[|ops| - 1];
      RetryCountIsFailuresSinceSuccess(front);
      FailuresSinceSuccessSnoc(front, last);
      NotYetCounted(front);
      assert ops == front + [last];
    }
  }

  lemma NotYetCounted(ops: seq<TrackerOp>)
    ensures |ops| !in FailuresSinceSuccess(ops)
  {
  }

  lemma FailuresSinceSuccessSnoc(ops: seq<TrackerOp>, op: TrackerOp)
    ensures FailuresSinceSuccess(ops + [op]) ==
      if op.RecordSuccess? then {}
      else FailuresSinceSuccess(ops) + (if op.RecordFailure? && RunOps(ops).state.Closed? then {|ops|} else {})
  {
    hide RunOps;
    var more := ops + [op];
    assert more[..|ops|] == ops;
    assert forall i | 0 <= i <= |ops| :: more[..i] == ops[..i];
    assert more[|ops|] == op;
    if !op.RecordSuccess? {
      var added := if op.RecordFailure? && RunOps(ops).state.Closed? then {|ops|} else {};
      forall i ensures i in FailuresSinceSuccess(more) <==> i in FailuresSinceSuccess(ops) + added {
        if 0 <= i < |ops| {
          assert (forall j | i < j < |ops| :: !ops[j].RecordSuccess?) <==>
                 (forall j | i < j < |more| :: !more[j].RecordSuccess?);
        }
      }
    }
  }

  /** Two trackers that differ at most in their retry count. */
  predicate SameBreaker(a: Tracker, b: Tracker) {
    a.(retryCount := b.retryCount) == b
  }

  lemma SameAfter(a: Tracker, b: Tracker, op: TrackerOp)
    requires SameBreaker(a, b)
    ensures SameBreaker(Do(a, op), Do(b, op))
  {
    hide Within;
  }

  /** The run without the successes that were recorded while the breaker was closed. */
  function WithoutClosedSuccesses(ops: seq<TrackerOp>): seq<TrackerOp> {
    if ops == [] then []
    else
      var front, last := ops[..|ops| - 1], ops[|ops| - 1];
      WithoutClosedSuccesses(front) + (if last.RecordSuccess? && RunOps(front).state.Closed? then [] else [last])
  }

  /** Successes while closed have no bearing on the breaker: without them it trips at the same times. */
  lemma {:induction false} ClosedSuccessesIrrelevant(ops: seq<TrackerOp>)
    ensures SameBreaker(RunOps(WithoutClosedSuccesses(ops)), RunOps(ops))
  {
    if ops == [] {
    } else {
      var front, last := ops[..|ops| - 1], ops[|ops| - 1];
      ClosedSuccessesIrrelevant(front);
      var kept := WithoutClosedSuccesses(front);
      assert kept + [] == kept;
      if !(last.RecordSuccess? && RunOps(front).state.Closed?) {
        assert (kept + [last])[..|kept|] == kept;
        SameAfter(RunOps(kept), RunOps(front), last);
      }
    }
  }
}

/** The bounded retry loop of pkg/utils/retry.go.

    `RetryWithBackoff` is the loop; `RetryFrom` is the function it is proved against. The closure
    that Go passes in is a function on a threaded state `S`; the context and the random generator
    are the environment `env`, one `Pause` per attempt. */
module Retry {
  import opened Base

  datatype RetryConfig = RetryConfig(maxAttempts: int, initialBackoff: int, maxBackoff: int)

  const INT64_LIMIT: int := 0x8000_0000_0000_0000

  /** What the environment does after a failed attempt: the state of the context before and during
      the sleep, the random number in [0, 1), and the value that converting an out-of-range float
      to a Duration happens to give, which Go leaves to the implementation. */
  datatype RawPause = Pause(cancelledBefore: bool, cancelledDuring: bool, random: real, wild: int)

  type Pause = p: RawPause | 0.0 <= p.random < 1.0 && -INT64_LIMIT <= p.wild < INT64_LIMIT
    witness RawPause.Pause(false, false, 0.0, 0)

  /** Conversion of a float to a 64-bit Duration: truncation toward zero when in range. */
  function ToDuration(x: real, wild: int): int {
    var t := if x >= 0.0 then x.Floor else -((-x).Floor);
    if -INT64_LIMIT <= t < INT64_LIMIT then t else wild
  }

  /** Up to half of the backoff again. */
  function Jitter(random: real, backoff: real): (j: real)
    ensures 0.0 <= random < 1.0 && 0.0 <= backoff ==> 0.0 <= j <= 0.5 * backoff
  {
    var half := random * 0.5;
    var j := half * backoff;
    assert 0.0 <= random < 1.0 && 0.0 <= backoff ==> 0.0 <= j <= 0.5 * backoff by {
      if 0.0 <= random < 1.0 && 0.0 <= backoff {
        ProductNonnegative(half, backoff);
        ProductNonnegative(0.5 - half, backoff);
        assert (0.5 - half) * backoff == 0.5 * backoff - j;
      }
    }
    j
  }

  /** The exponential backoff before capping. */
  function Uncapped(base: int, p: Pause): int {
    ToDuration(base as real + Jitter(p.random, base as real), p.wild)
  }

  function NextBackoff(cfg: RetryConfig, attempt: nat, p: Pause): int {
    if attempt == 0 then cfg.initialBackoff
    else
      var next := Uncapped(Scaled(cfg.initialBackoff, attempt), p);
      if next > cfg.maxBackoff then cfg.maxBackoff else next
  }

  predicate GivesUpOn(isRetryable: Option<Error -> bool>, e: Error) {
    isRetryable.Some? && !isRetryable.value(e)
  }

  predicate DefaultIsRetryable(e: Error) {
    true
  }

  /** DefaultIsRetryable as the value that callers pass. */
  function DefaultPolicy(): Option<Error -> bool> {
    var policy: Error -> bool := (e: Error) => DefaultIsRetryable(e);
    Some(policy)
  }

  /** Where a retry ends: the final state and error, what each call of the function returned and
      how long each sleep was. */
  datatype Outcome<S> = Outcome(state: S, err: Option<Error>, results: seq<Option<Error>>, waits: seq<int>) {
    /** The same end with earlier calls and sleeps put before it. */
    function After(earlierResults: seq<Option<Error>>, earlierWaits: seq<int>): Outcome<S> {
      Outcome(state, err, earlierResults + results, earlierWaits + waits)
    }

    lemma AfterTwice(a: seq<Option<Error>>, b: seq<int>, e: Option<Error>, w: int)
      ensures After([e], [w]).After(a, b) == After(a + [e], b + [w])
    {
      assert a + ([e] + results) == (a + [e]) + results;
      assert b + ([w] + waits) == (b + [w]) + waits;
    }
  }

  function RetryFrom<S>(cfg: RetryConfig, fn: S -> (S, Option<Error>), isRetryable: Option<Error -> bool>,
                        env: nat -> Pause, attempt: nat, s: S, err: Option<Error>): Outcome<S>
    decreases cfg.maxAttempts - attempt
  {
    if attempt >= cfg.maxAttempts then Outcome(s, err, [], [])
    else
      var (s', e) := fn(s);
      if e.None? then Outcome(s', None, [e], [])
      else if GivesUpOn(isRetryable, e.value) then Outcome(s', e, [e], [])
      else if env(attempt).cancelledBefore then Outcome(s', Some(Cancelled), [e], [])
      else
        var wait := NextBackoff(cfg, attempt, env(attempt));
        if env(attempt).cancelledDuring then Outcome(s', Some(Cancelled), [e], [wait])
        else
          var rest := RetryFrom(cfg, fn, isRetryable, env, attempt + 1, s', e);
          rest.After([e], [wait])
  }

  method RetryWithBackoff<S>(cfg: RetryConfig, fn: S -> (S, Option<Error>), isRetryable: Option<Error -> bool>,
                             env: nat -> Pause, s0: S)
    returns (err: Option<Error>, s: S, results: seq<Option<Error>>, waits: seq<int>)
    ensures Outcome(s, err, results, waits) == RetryFrom(cfg, fn, isRetryable, env, 0, s0, None)
  {
    err, s, results, waits := None, s0, [], [];
    ghost var all := RetryFrom(cfg, fn, isRetryable, env, 0, s0, None);
    hide NextBackoff, Outcome.After;
    assert all == all.After([], []) by { FromStart(all); }
    var attempt := 0;
    while attempt < cfg.maxAttempts
      invariant 0 <= attempt
      invariant all == RetryFrom(cfg, fn, isRetryable, env, attempt, s, err).After(results, waits)
    {
      ghost var earlierResults, earlierWaits := results, waits;
      var (s', e) := fn(s);
      s, err, results := s', e, results + [e];
      Ending(s, err, e, earlierResults, waits);
      if err.None? {
        return;
      }
      if GivesUpOn(isRetryable, err.value) {
        return;
      }
      if env(attempt).cancelledBefore {
        err := Some(Cancelled);
        Ending(s, err, e, earlierResults, waits);
        return;
      }
      var nextBackoff := NextBackoff(cfg, attempt, env(attempt));
      waits := waits + [nextBackoff];
      if env(attempt).cancelledDuring {
        err := Some(Cancelled);
        EndingAsleep(s, err, e, nextBackoff, earlierResults, earlierWaits);
        return;
      }
      attempt := attempt + 1;
      RetryFrom(cfg, fn, isRetryable, env, attempt, s, err).AfterTwice(earlierResults, earlierWaits, e, nextBackoff);
    }
    Exhausted(s, err, results, waits);
  }

  lemma FromStart<S>(r: Outcome<S>)
    ensures r.After([], []) == r
  {
  }

  lemma Exhausted<S>(s: S, err: Option<Error>, results: seq<Option<Error>>, waits: seq<int>)
    ensures Outcome(s, err, [], []).After(results, waits) == Outcome(s, err, results, waits)
  {
  }

  lemma Ending<S>(s: S, err: Option<Error>, e: Option<Error>, results: seq<Option<Error>>, waits: seq<int>)
    ensures Outcome(s, err, [e], []).After(results, waits) == Outcome(s, err, results + [e], waits)
  {
  }

  lemma EndingAsleep<S>(s: S, err: Option<Error>, e: Option<Error>, wait: int, results: seq<Option<Error>>,
                        waits: seq<int>)
    ensures Outcome(s, err, [e], [wait]).After(results, waits) == Outcome(s, err, results + [e], waits + [wait])
  {
  }

  // ---------- accounting ----------

  /** The state after `n` calls of `fn`, whatever they returned. */
  function Iterate<S>(fn: S -> (S, Option<Error>), s: S, n: nat): S {
    if n == 0 then s else Iterate(fn, fn(s).0, n - 1)
  }

  lemma {:induction false} IterateStep<S>(fn: S -> (S, Option<Error>), s: S, n: nat)
    ensures Iterate(fn, s, n + 1) == fn(Iterate(fn, s, n)).0
  {
    if n == 0 {
    } else {
      IterateStep(fn, fn(s).0, n - 1);
    }
  }

  /** Whether attempts from `attempt` on are neither cancelled nor given up on. */
  ghost predicate Uninterrupted(isRetryable: Option<Error -> bool>, env: nat -> Pause) {
    && (forall k: nat :: !env(k).cancelledBefore && !env(k).cancelledDuring)
    && (forall e: Error :: !GivesUpOn(isRetryable, e))
  }

  /** Every call is made on the state the calls before it left, each call but the last failed, and
      nil comes back exactly when the last call succeeded. */
  lemma {:induction false} Accounting<S>(cfg: RetryConfig, fn: S -> (S, Option<Error>),
                                         isRetryable: Option<Error -> bool>,
                                         env: nat -> Pause, attempt: nat, s: S, err: Option<Error>)
    requires attempt < cfg.maxAttempts
    ensures var r := RetryFrom(cfg, fn, isRetryable, env, attempt, s, err);
      var n := |r.results|;
      && 1 <= n <= cfg.maxAttempts - attempt
      && r.state == Iterate(fn, s, n)
      && (forall i | 0 <= i < n :: r.results[i] == fn(Iterate(fn, s, i)).1)
      && (forall i | 0 <= i < n - 1 :: r.results[i].Some?)
      && (r.err.None? <==> r.results[n - 1].None?)
    decreases cfg.maxAttempts - attempt
  {
    hide NextBackoff;
    var (s', e) := fn(s);
    var r := RetryFrom(cfg, fn, isRetryable, env, attempt, s, err);
    assert Iterate(fn, s, 1) == Iterate(fn, s', 0);
    if |r.results| > 1 {
      var rest := RetryFrom(cfg, fn, isRetryable, env, attempt + 1, s', e);
      assert r == Outcome(rest.state, rest.err, [e] + rest.results, r.waits);
      assert attempt + 1 < cfg.maxAttempts;
      Accounting(cfg, fn, isRetryable, env, attempt + 1, s', e);
      forall i | 0 < i < |r.results|
        ensures r.results[i] == fn(Iterate(fn, s, i)).1
      {
        assert r.results[i] == rest.results[i - 1] == fn(Iterate(fn, s', i - 1)).1;
      }
    } else if attempt + 1 < cfg.maxAttempts {
      AtLeastOneCall(cfg, fn, isRetryable, env, attempt + 1, s', e);
    }
  }

  lemma AtLeastOneCall<S>(cfg: RetryConfig, fn: S -> (S, Option<Error>), isRetryable: Option<Error -> bool>,
                          env: nat -> Pause, attempt: nat, s: S, err: Option<Error>)
    requires attempt < cfg.maxAttempts
    ensures |RetryFrom(cfg, fn, isRetryable, env, attempt, s, err).results| >= 1
  {
  }

  predicate Interrupts(p: Pause) {
    p.cancelledBefore || p.cancelledDuring
  }

  /** The error the loop returns after its last call: nil on success, the error if it is not to be
      retried, a cancellation if the context ends before or during the sleep, and otherwise the error
      of the last attempt there was. */
  ghost predicate Returns(err: Option<Error>, last: Option<Error>, isRetryable: Option<Error -> bool>, p: Pause,
                          exhausted: bool)
  {
    if last.None? then err.None?
    else if GivesUpOn(isRetryable, last.value) then err == last
    else if Interrupts(p) then err == Some(Cancelled)
    else err == last && exhausted
  }

  /** The loop goes on only past retryable errors and whole sleeps. */
  ghost predicate GoesOn(e: Option<Error>, isRetryable: Option<Error -> bool>, p: Pause) {
    e.Some? && !GivesUpOn(isRetryable, e.value) && !Interrupts(p)
  }

  /** A run of the loop from `attempt` on, with `left` attempts left. */
  ghost predicate EndsProperly<S>(r: Outcome<S>, isRetryable: Option<Error -> bool>, env: nat -> Pause, attempt: nat,
                                  left: int)
  {
    var n := |r.results|;
    && 1 <= n <= left
    && (forall i: nat | i < n - 1 :: GoesOn(r.results[i], isRetryable, env(attempt + i)))
    && Returns(r.err, r.results[n - 1], isRetryable, env(attempt + (n - 1)), n == left)
  }

  lemma EndsProperlyLater<S>(r: Outcome<S>, rest: Outcome<S>, isRetryable: Option<Error -> bool>, env: nat -> Pause,
                             attempt: nat, left: int, e: Option<Error>)
    requires EndsProperly(rest, isRetryable, env, attempt + 1, left - 1)
    requires GoesOn(e, isRetryable, env(attempt))
    requires r.results == [e] + rest.results && r.err == rest.err
    ensures EndsProperly(r, isRetryable, env, attempt, left)
  {
    hide GoesOn, Returns;
    var n := |r.results|;
    assert r.results[n - 1] == rest.results[n - 2] && attempt + 1 + (n - 2) == attempt + (n - 1);
    forall i: nat | i < n - 1 ensures GoesOn(r.results[i], isRetryable, env(attempt + i)) {
      if i > 0 {
        var k: nat := i - 1;
        assert r.results[i] == rest.results[k] && attempt + 1 + k == attempt + i;
      }
    }
  }

  lemma {:induction false} EndOfLoop<S>(cfg: RetryConfig, fn: S -> (S, Option<Error>),
                                        isRetryable: Option<Error -> bool>,
                                        env: nat -> Pause, attempt: nat, s: S, err: Option<Error>)
    requires attempt < cfg.maxAttempts
    ensures EndsProperly(RetryFrom(cfg, fn, isRetryable, env, attempt, s, err), isRetryable, env, attempt,
                         cfg.maxAttempts - attempt)
    decreases cfg.maxAttempts - attempt
  {
    hide NextBackoff;
    var (s', e) := fn(s);
    if GoesOn(e, isRetryable, env(attempt)) && attempt + 1 < cfg.maxAttempts {
      EndOfLoop(cfg, fn, isRetryable, env, attempt + 1, s', e);
      EndsProperlyLater(RetryFrom(cfg, fn, isRetryable, env, attempt, s, err),
                        RetryFrom(cfg, fn, isRetryable, env, attempt + 1, s', e),
                        isRetryable, env, attempt, cfg.maxAttempts - attempt, e);
    }
  }

  /** Uninterrupted, the loop stops only at the first success or after the last allowed attempt. */
  lemma StopsOnlyOnSuccess<S>(cfg: RetryConfig, fn: S -> (S, Option<Error>), isRetryable: Option<Error -> bool>,
                              env: nat -> Pause, s: S)
    requires 0 < cfg.maxAttempts && Uninterrupted(isRetryable, env)
    ensures var r := RetryFrom(cfg, fn, isRetryable, env, 0, s, None);
      var n := |r.results|;
      && 1 <= n <= cfg.maxAttempts
      && (forall i | 0 <= i < n - 1 :: r.results[i].Some?)
      && r.err == r.results[n - 1]
      && (n == cfg.maxAttempts || r.err.None?)
  {
    hide RetryFrom;
    EndOfLoop(cfg, fn, isRetryable, env, 0, s, None);
    var r := RetryFrom(cfg, fn, isRetryable, env, 0, s, None);
    assert forall i: nat | i < |r.results| - 1 :: GoesOn(r.results[i], isRetryable, env(0 + i));
    assert !Interrupts(env(|r.results| - 1));
  }

  /** The loop sleeps after every call but the last, and after that one too if it failed with an error to be
      retried and the context was still alive. */
  lemma {:induction false} Sleeps<S>(cfg: RetryConfig, fn: S -> (S, Option<Error>),
                                     isRetryable: Option<Error -> bool>,
                                     env: nat -> Pause, attempt: nat, s: S, err: Option<Error>)
    requires attempt < cfg.maxAttempts
    ensures var r := RetryFrom(cfg, fn, isRetryable, env, attempt, s, err);
      var n := |r.results|;
      && n >= 1
      && var last := r.results[n - 1];
      |r.waits| == n - 1 + (if last.Some? && !GivesUpOn(isRetryable, last.value)
                               && !env(attempt + (n - 1)).cancelledBefore then 1 else 0)
    decreases cfg.maxAttempts - attempt
  {
    hide NextBackoff;
    var (s', e) := fn(s);
    if attempt + 1 < cfg.maxAttempts && GoesOn(e, isRetryable, env(attempt)) {
      Sleeps(cfg, fn, isRetryable, env, attempt + 1, s', e);
      var n := |RetryFrom(cfg, fn, isRetryable, env, attempt, s, err).results|;
      assert attempt + 1 + (n - 2) == attempt + (n - 1);
    }
  }

  /** An uninterrupted loop sleeps after every failed call, the last allowed one included. */
  lemma {:induction false} SleepsAfterEveryFailure<S>(cfg: RetryConfig, fn: S -> (S, Option<Error>),
                                                      isRetryable: Option<Error -> bool>,
                                                      env: nat -> Pause, attempt: nat, s: S, err: Option<Error>)
    requires attempt < cfg.maxAttempts && Uninterrupted(isRetryable, env)
    ensures var r := RetryFrom(cfg, fn, isRetryable, env, attempt, s, err);
      |r.waits| == if r.err.Some? then |r.results| else |r.results| - 1
    decreases cfg.maxAttempts - attempt
  {
    if attempt + 1 < cfg.maxAttempts {
      var (s', e) := fn(s);
      SleepsAfterEveryFailure(cfg, fn, isRetryable, env, attempt + 1, s', e);
    }
  }

  /** With no attempts allowed nothing is called and nil is returned: the case that Validate excludes. */
  lemma NoAttemptsSucceedSilently<S>(cfg: RetryConfig, fn: S -> (S, Option<Error>), isRetryable: Option<Error -> bool>,
                                     env: nat -> Pause, s: S)
    ensures var r := RetryFrom(cfg, fn, isRetryable, env, 0, s, None);
      r.results == [] <==> cfg.maxAttempts <= 0
    ensures cfg.maxAttempts <= 0 ==> RetryFrom(cfg, fn, isRetryable, env, 0, s, None) == Outcome(s, None, [], [])
  {
    if cfg.maxAttempts > 0 {
      Accounting(cfg, fn, isRetryable, env, 0, s, None);
    }
  }

  // ---------- backoff arithmetic ----------

  /** What Validate says of the retry settings. */
  predicate Validated(cfg: RetryConfig) {
    && cfg.maxAttempts > 0
    && cfg.initialBackoff >= 0
    && cfg.maxBackoff >= 0
    && !(cfg.initialBackoff > cfg.maxBackoff && cfg.maxBackoff != 0)
  }

  /** Even the last backoff with full jitter fits a Duration. */
  predicate FitsDuration(cfg: RetryConfig) {
    cfg.maxAttempts > 0 && 3 * Scaled(cfg.initialBackoff, cfg.maxAttempts - 1) < 2 * INT64_LIMIT
  }

  /** The backoff before capping lies between I * 2^k and 3/2 of it. */
  lemma {:induction false} UncappedBounds(base: nat, p: Pause)
    requires 3 * base < 2 * INT64_LIMIT
    ensures base <= Uncapped(base, p) && 2 * Uncapped(base, p) <= 3 * base
  {
    var j := Jitter(p.random, base as real);
    var t := (base as real + j).Floor;
    assert 2 * t <= 3 * base by {
      assert 2.0 * t as real <= 3.0 * base as real;
    }
    assert base <= t;
  }

  lemma {:induction false} NextBackoffBounds(cfg: RetryConfig, k: nat, p: Pause)
    requires 0 <= cfg.initialBackoff && FitsDuration(cfg) && 1 <= k < cfg.maxAttempts
    ensures var full := Scaled(cfg.initialBackoff, k);
      var next := NextBackoff(cfg, k, p);
      && next <= cfg.maxBackoff
      && 2 * next <= 3 * full
      && next >= (if full < cfg.maxBackoff then full else cfg.maxBackoff)
      && (full >= cfg.maxBackoff ==> next == cfg.maxBackoff)
    ensures cfg.maxBackoff >= 0 ==> NextBackoff(cfg, k, p) >= 0
  {
    var full := Scaled(cfg.initialBackoff, k);
    ScaledMonotone(cfg.initialBackoff, k, cfg.maxAttempts - 1);
    UncappedBounds(full, p);
  }

  /** The wait after a retry is I * 2^k stretched by half of the random number, in whole nanoseconds, and at
      most Max. */
  lemma {:induction false} NextBackoffExactly(cfg: RetryConfig, k: nat, p: Pause)
    requires 0 <= cfg.initialBackoff && FitsDuration(cfg) && 1 <= k < cfg.maxAttempts
    ensures var stretched := (cfg.initialBackoff * Pow2(k)) as real * (1.0 + p.random / 2.0);
      var next := NextBackoff(cfg, k, p);
      if stretched < cfg.maxBackoff as real then next as real <= stretched < (next + 1) as real
      else next == cfg.maxBackoff
  {
    hide Uncapped, Scaled, Pow2;
    ScaledIsPower(cfg.initialBackoff, k);
    ScaledMonotone(cfg.initialBackoff, k, cfg.maxAttempts - 1);
    UncappedExactly(Scaled(cfg.initialBackoff, k), p);
  }

  lemma UncappedExactly(base: nat, p: Pause)
    requires 3 * base < 2 * INT64_LIMIT
    ensures Uncapped(base, p) == (base as real * (1.0 + p.random / 2.0)).Floor
  {
    UncappedBounds(base, p);
    var j := Jitter(p.random, base as real);
    assert base as real * (1.0 + p.random / 2.0) == base as real + j;
    assert 2.0 * (base as real + j) <= 3.0 * base as real;
  }

  /** One step of the schedule: a later wait is never shorter, whatever the two jitters. */
  lemma {:induction false} NextBackoffGrows(cfg: RetryConfig, k: nat, p: Pause, q: Pause)
    requires 0 <= cfg.initialBackoff <= cfg.maxBackoff && FitsDuration(cfg) && k + 1 < cfg.maxAttempts
    ensures NextBackoff(cfg, k, p) <= NextBackoff(cfg, k + 1, q)
  {
    NextBackoffBounds(cfg, k + 1, q);
    var full := Scaled(cfg.initialBackoff, k);
    assert Scaled(cfg.initialBackoff, k + 1) == 2 * full;
    if k > 0 {
      NextBackoffBounds(cfg, k, p);
    } else {
      assert full == cfg.initialBackoff;
    }
  }

  lemma {:induction false} WaitsAre<S>(cfg: RetryConfig, fn: S -> (S, Option<Error>),
                                       isRetryable: Option<Error -> bool>,
                                       env: nat -> Pause, attempt: nat, s: S, err: Option<Error>)
    ensures var r := RetryFrom(cfg, fn, isRetryable, env, attempt, s, err);
      && |r.waits| <= (if attempt < cfg.maxAttempts then cfg.maxAttempts - attempt else 0)
      && forall i | 0 <= i < |r.waits| :: r.waits[i] == NextBackoff(cfg, attempt + i, env(attempt + i))
    decreases cfg.maxAttempts - attempt
  {
    if attempt < cfg.maxAttempts {
      var (s', e) := fn(s);
      WaitsAre(cfg, fn, isRetryable, env, attempt + 1, s', e);
    }
  }

  function Sum(xs: seq<int>): int {
    if xs == [] then 0 else xs[|xs| - 1] + Sum(xs[..|xs| - 1])
  }

  lemma {:induction false} SumBound(xs: seq<int>, first: int, each: int)
    requires xs != [] ==> xs[0] <= first
    requires forall i | 1 <= i < |xs| :: xs[i] <= each
    ensures xs != [] ==> Sum(xs) <= first + (|xs| - 1) * each
  {
    if |xs| > 1 {
      SumBound(xs[..|xs| - 1], first, each);
    } else if |xs| == 1 {
      assert xs[..0] == [];
    }
  }

  ghost predicate Nondecreasing(xs: seq<int>) {
    forall i, j | 0 <= i < j < |xs| :: xs[i] <= xs[j]
  }

  lemma {:induction false} StepsNondecreasing(xs: seq<int>)
    requires forall i | 0 <= i < |xs| - 1 :: xs[i] <= xs[i + 1]
    ensures Nondecreasing(xs)
  {
    if |xs| > 1 {
      var front := xs[..|xs| - 1];
      StepsNondecreasing(front);
      forall i, j | 0 <= i < j < |xs| ensures xs[i] <= xs[j] {
        if j == |xs| - 1 {
          if i < j - 1 { assert front[i] <= front[j - 1]; }
          assert xs[j - 1] <= xs[(j - 1) + 1];
        } else {
          assert front[i] <= front[j];
        }
      }
    }
  }

  /** The wait after attempt k lies in [min(I * 2^k, Max), Max], and is Max once I * 2^k reaches it. */
  ghost predicate InBand(cfg: RetryConfig, k: nat, wait: int) {
    var full := cfg.initialBackoff * Pow2(k);
    && (if full < cfg.maxBackoff then full else cfg.maxBackoff) <= wait <= cfg.maxBackoff
    && (full >= cfg.maxBackoff ==> wait == cfg.maxBackoff)
  }

  lemma {:induction false} WaitInBand(cfg: RetryConfig, k: nat, p: Pause)
    requires 0 <= cfg.initialBackoff <= cfg.maxBackoff && FitsDuration(cfg) && k < cfg.maxAttempts
    ensures InBand(cfg, k, NextBackoff(cfg, k, p))
  {
    ScaledIsPower(cfg.initialBackoff, k);
    if k == 0 {
    } else {
      NextBackoffBounds(cfg, k, p);
    }
  }

  lemma {:induction false} ScheduleBound(waits: seq<int>, cfg: RetryConfig)
    requires 0 <= cfg.initialBackoff <= cfg.maxBackoff && |waits| <= cfg.maxAttempts && 0 < cfg.maxAttempts
    requires waits != [] ==> waits[0] <= cfg.initialBackoff
    requires forall k | 0 <= k < |waits| :: waits[k] <= cfg.maxBackoff
    ensures Sum(waits) <= cfg.initialBackoff + (cfg.maxAttempts - 1) * cfg.maxBackoff
  {
    SumBound(waits, cfg.initialBackoff, cfg.maxBackoff);
    var n := if waits == [] then 0 else |waits| - 1;
    assert n * cfg.maxBackoff <= (cfg.maxAttempts - 1) * cfg.maxBackoff;
    assert 0 <= n * cfg.maxBackoff;
  }

  /** The whole schedule of one call: waits never shrink despite up to 50% jitter, each lies in its
      band, and all sleeps together last at most I + (MaxAttempts - 1) * Max. */
  lemma {:induction false} BackoffSchedule<S>(cfg: RetryConfig, fn: S -> (S, Option<Error>),
                                              isRetryable: Option<Error -> bool>,
                                              env: nat -> Pause, s: S)
    requires 0 <= cfg.initialBackoff <= cfg.maxBackoff && FitsDuration(cfg)
    ensures var waits := RetryFrom(cfg, fn, isRetryable, env, 0, s, None).waits;
      && Nondecreasing(waits)
      && (forall k | 0 <= k < |waits| :: InBand(cfg, k, waits[k]))
      && Sum(waits) <= cfg.initialBackoff + (cfg.maxAttempts - 1) * cfg.maxBackoff
  {
    var waits := RetryFrom(cfg, fn, isRetryable, env, 0, s, None).waits;
    WaitsAre(cfg, fn, isRetryable, env, 0, s, None);
    forall k | 0 <= k < |waits| ensures InBand(cfg, k, waits[k]) && waits[k] <= cfg.maxBackoff {
      WaitInBand(cfg, k, env(k));
    }
    forall i | 0 <= i < |waits| - 1 ensures waits[i] <= waits[i + 1] {
      NextBackoffGrows(cfg, i, env(i), env(i + 1));
    }
    StepsNondecreasing(waits);
    ScheduleBound(waits, cfg);
  }

  /** Validate lets MaxBackoff be zero beside a positive InitialBackoff. That is exactly the case in
      which the schedule shrinks: the first wait is not capped and every later one is zero. */
  lemma {:induction false} ScheduleGrowsIff<S>(cfg: RetryConfig, fn: S -> (S, Option<Error>),
                                               isRetryable: Option<Error -> bool>,
                                               env: nat -> Pause, s: S)
    requires Validated(cfg) && FitsDuration(cfg)
    ensures var waits := RetryFrom(cfg, fn, isRetryable, env, 0, s, None).waits;
      |waits| >= 2 ==> (Nondecreasing(waits) <==> cfg.initialBackoff <= cfg.maxBackoff)
  {
    var waits := RetryFrom(cfg, fn, isRetryable, env, 0, s, None).waits;
    if cfg.initialBackoff <= cfg.maxBackoff {
      BackoffSchedule(cfg, fn, isRetryable, env, s);
    } else if |waits| >= 2 {
      WaitsAre(cfg, fn, isRetryable, env, 0, s, None);
      NextBackoffBounds(cfg, 1, env(1));
      assert waits[0] > waits[1];
    }
  }
}

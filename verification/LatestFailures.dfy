/** Containment to latest failures. When failed PUTs have no effect, a nil operation repairs its IP and
    a failed one leaves the list alone, so only IPs whose latest operation failed can be wrong. */
module LatestFailures {
  import opened Base
  import opened Config
  import opened Addresses
  import opened AllowList
  import opened NodeWatch
  import opened UpdateProofs
  import opened Agreement
  import opened Reconcile
  import opened Determinism
  import opened Invariants
  import Retry

  /** The normalised IPs whose latest operation on `db` returned an error. */
  function LatestFailed(log: seq<Call>, db: string): set<string> {
    if log == [] then {}
    else
      var earlier, last := LatestFailed(log[..|log| - 1], db), log[|log| - 1];
      if !last.Done? || last.db != db then earlier
      else if last.err.Some? then earlier + {NormalizeIP(last.ip)}
      else earlier - {NormalizeIP(last.ip)}
  }

  lemma LatestFailedAppend(log: seq<Call>, c: Call, db: string)
    ensures LatestFailed(log + [c], db) ==
      if !c.Done? || c.db != db then LatestFailed(log, db)
      else if c.err.Some? then LatestFailed(log, db) + {NormalizeIP(c.ip)}
      else LatestFailed(log, db) - {NormalizeIP(c.ip)}
  {
    assert (log + [c])[..|log|] == log;
  }

  /** An IP is excepted for its latest failure only if it is excepted for some failure. */
  lemma {:induction false} LatestFailedIsFailed(log: seq<Call>, db: string)
    ensures LatestFailed(log, db) <= Failed(log, db)
  {
    if log == [] {
    } else {
      hide Failed, LatestFailed;
      var front, last := log[..|log| - 1], log[|log| - 1];
      LatestFailedIsFailed(front, db);
      FailedAppend(front, last, db);
      LatestFailedAppend(front, last, db);
      assert log == front + [last];
    }
  }

  lemma {:induction false} LatestFailedLocal(log0: seq<Call>, log: seq<Call>, db: string)
    requires log0 <= log && forall i | |log0| <= i < |log| :: !log[i].Done?
    ensures LatestFailed(log, db) == LatestFailed(log0, db)
  {
    if log == log0 {
    } else {
      LatestFailedLocal(log0, log[..|log| - 1], db);
    }
  }

  lemma LatestFailedAfter(w: World, s: Step, db: string, ip: string, op: Op, d: string)
    requires Effect(w, s, db, ip, op)
    ensures LatestFailed(s.w.log, d) ==
      if d != db then LatestFailed(w.log, d)
      else if s.err.Some? then LatestFailed(w.log, d) + {NormalizeIP(ip)}
      else LatestFailed(w.log, d) - {NormalizeIP(ip)}
  {
    hide Effect, LatestFailed, Target;
    EffectLog(w, s, db, ip, op);
    var front := s.w.log[..|s.w.log| - 1];
    LatestFailedLocal(w.log, front, d);
    LatestFailedAppend(front, Done(db, ip, op, s.err), d);
    assert s.w.log == front + [Done(db, ip, op, s.err)];
  }

  // ---------- one operation ----------

  lemma FailedAttemptInert(o: Oracle, w: World, db: string, ip: string, op: Op)
    requires FailuresInert(o) && Attempt(o, w, db, ip, op).err.Some?
    ensures Attempt(o, w, db, ip, op).w.remote == w.remote
  {
    hide Edited, Modifies;
  }

  lemma {:induction false} FailedAttemptsInert(o: Oracle, w: World, db: string, ip: string, op: Op,
                                               fn: World -> (World, Option<Error>), n: nat)
    requires FailuresInert(o) && fn == AttemptFn(o, db, ip, op)
    requires forall i: nat | i < n :: fn(Retry.Iterate(fn, w, i)).1.Some?
    ensures Retry.Iterate(fn, w, n).remote == w.remote
  {
    hide Attempt, FailuresInert;
    if n == 0 {
    } else {
      FailedAttemptsInert(o, w, db, ip, op, fn, n - 1);
      Retry.IterateStep(fn, w, n - 1);
      FailedAttemptInert(o, Retry.Iterate(fn, w, n - 1), db, ip, op);
    }
  }

  lemma FailedRetryInert(o: Oracle, cfg: Config, w: World, db: string, ip: string, op: Op, env: nat -> Retry.Pause)
    requires cfg.retry.maxAttempts > 0 && FailuresInert(o)
    requires RetryUpdate(o, cfg, w, db, ip, op, env).err.Some?
    ensures RetryUpdate(o, cfg, w, db, ip, op, env).state.remote == w.remote
  {
    hide Attempt, FailuresInert;
    var fn := AttemptFn(o, db, ip, op);
    Retry.Accounting(cfg.retry, fn, Retry.DefaultPolicy(), env, 0, w, None);
    FailedAttemptsInert(o, w, db, ip, op, fn, |RetryUpdate(o, cfg, w, db, ip, op, env).results|);
  }

  /** A failed operation leaves every remote list alone. */
  lemma FailureLeavesLists(o: Oracle, cfg: Config, w: World, db: string, ip: string, op: Op)
    requires cfg.retry.maxAttempts > 0 && FailuresInert(o)
    requires UpdateDb(o, cfg, w, db, ip, op).err.Some?
    ensures UpdateDb(o, cfg, w, db, ip, op).w.remote == w.remote
  {
    hide RetryUpdate, FailuresInert;
    var a := Wait(o, w);
    if a.err.None? {
      FailedRetryInert(o, cfg, a.w, db, ip, op, o.pauses(|a.w.log|));
    }
  }

  /** A successful operation makes the edit on its remote list and on no other. */
  lemma SuccessEditsList(o: Oracle, cfg: Config, w: World, db: string, ip: string, op: Op, d: string)
    requires cfg.retry.maxAttempts > 0 && AllExact(w) && d in w.remote
    requires UpdateDb(o, cfg, w, db, ip, op).err.None?
    ensures var w' := UpdateDb(o, cfg, w, db, ip, op).w;
      && d in w'.remote
      && NormSet(w'.remote[d]) ==
         if d == db then Edit(NormSet(w.remote[d]), {NormalizeIP(ip)}, op) else NormSet(w.remote[d])
  {
    hide UpdateDb, NormSet, Rewritten, Writes;
    UpdateRefinesEdit(o, cfg, w, db, ip, op);
    var w', x := UpdateDb(o, cfg, w, db, ip, op).w, {NormalizeIP(ip)};
    assert BecameAt(w, w', d, d in {db}, x, op);
    CoherentEdit(w, w', d, d == db, x, op);
    RewrittenSet(w.remote[d], x, op);
  }

  lemma UpdateDbExact(o: Oracle, cfg: Config, w: World, db: string, ip: string, op: Op)
    requires cfg.retry.maxAttempts > 0 && FailuresInert(o) && AllExact(w)
    ensures AllExact(UpdateDb(o, cfg, w, db, ip, op).w)
  {
    hide AllExact, Inductive, UpdateDb, FailuresInert;
    AllExactInductive(o);
    UpdateDbKeeps(o, cfg, AllExact, Anything, w, db, ip, op);
  }

  // ---------- runs ----------

  /** The cache is exact, and each remote list is the wanted set except on latest failures. */
  ghost predicate LatestAgrees(w: World, want: map<string, set<string>>) {
    && AllExact(w)
    && want.Keys == w.remote.Keys
    && forall db | db in want :: ListAgrees(w.remote[db], want[db], LatestFailed(w.log, db))
  }

  /** Success agrees at the edited IP whatever was there before; failure excepts it. */
  lemma EditWithSuccess(a: set<string>, b: set<string>, except: set<string>, x: set<string>, op: Op)
    requires AgreeOff(a, b, except)
    ensures AgreeOff(Edit(a, x, op), Edit(b, x, op), except - x)
  {
    assert forall s: set<string> :: s + x - (except - x) == (s - except) + x;
    assert forall s: set<string> :: s - x - (except - x) == (s - except) - x;
  }

  lemma LatestAt(o: Oracle, cfg: Config, w: World, want: map<string, set<string>>, db: string, ip: string, op: Op,
                 d: string)
    requires cfg.retry.maxAttempts > 0 && FailuresInert(o) && LatestAgrees(w, want) && d in want
    ensures var s := UpdateDb(o, cfg, w, db, ip, op);
      && d in s.w.remote
      && ListAgrees(s.w.remote[d], Apply(want, {db}, {NormalizeIP(ip)}, op)[d], LatestFailed(s.w.log, d))
  {
    var s, x := UpdateDb(o, cfg, w, db, ip, op), {NormalizeIP(ip)};
    hide UpdateDb, NormSet, LatestFailed, Edit, AllExact, FailuresInert, Effect;
    UpdateDbEffect(o, cfg, w, db, ip, op);
    LatestFailedAfter(w, s, db, ip, op, d);
    if s.err.Some? {
      FailureLeavesLists(o, cfg, w, db, ip, op);
      FailureContained(w.remote[d], want[d], LatestFailed(w.log, d), ip, op);
    } else {
      SuccessEditsList(o, cfg, w, db, ip, op, d);
      EditWithSuccess(NormSet(w.remote[d]), want[d], LatestFailed(w.log, d), x, op);
    }
  }

  lemma KeysKept(w: World, s: Step, db: string, ip: string, op: Op)
    requires Effect(w, s, db, ip, op)
    ensures s.w.remote.Keys == w.remote.Keys
  {
    hide Edited, Modifies, LocalLog;
  }

  lemma LatestTracks(o: Oracle, cfg: Config)
    requires cfg.retry.maxAttempts > 0 && FailuresInert(o)
    ensures Tracks(o, cfg, LatestAgrees)
  {
    forall w, want, db, ip, op | LatestAgrees(w, want)
      ensures LatestAgrees(UpdateDb(o, cfg, w, db, ip, op).w, Apply(want, {db}, {NormalizeIP(ip)}, op))
    {
      hide UpdateDb, FailuresInert, AllExact, Effect, LatestFailed, ListAgrees;
      UpdateDbExact(o, cfg, w, db, ip, op);
      UpdateDbEffect(o, cfg, w, db, ip, op);
      KeysKept(w, UpdateDb(o, cfg, w, db, ip, op), db, ip, op);
      forall d | d in want
        ensures ListAgrees(UpdateDb(o, cfg, w, db, ip, op).w.remote[d], Apply(want, {db}, {NormalizeIP(ip)}, op)[d],
                           LatestFailed(UpdateDb(o, cfg, w, db, ip, op).w.log, d))
      {
        LatestAt(o, cfg, w, want, db, ip, op, d);
      }
    }
  }

  lemma {:induction false} InitializeLatest(o: Oracle, w: World, ids: seq<string>)
    ensures var s := Initialize(o, w, ids);
      s.w.remote == w.remote && forall db :: LatestFailed(s.w.log, db) == LatestFailed(w.log, db)
  {
    if ids == [] {
    } else {
      var front, last := ids[..|ids| - 1], ids[|ids| - 1];
      InitializeLatest(o, w, front);
      var prior := Initialize(o, w, front).w;
      forall db ensures LatestFailed(Fetch(o, prior, last).w.log, db) == LatestFailed(prior.log, db) {
        LatestFailedLocal(prior.log, Fetch(o, prior, last).w.log, db);
      }
    }
  }

  /** Whole-run agreement, sharper: when failed PUTs have no effect, each remote list is the foreign entries
      and the entries of the live watched nodes, except on IPs whose latest operation on it failed. */
  lemma OnlyLatestFailuresDiffer(o: Oracle, cfg: Config, remote: map<string, seq<string>>, order: seq<string>,
                                 events: seq<Event>, db: string)
    requires Validated(cfg) && FailuresInert(o)
    requires AllOrdersFit(cfg, events) && Orderly(cfg, Foreign(remote), events) && db in remote
    ensures var w := Controller(o, cfg, remote, order, events);
      && db in w.remote
      && AgreeOff(NormSet(w.remote[db]), NormSet(remote[db]) + Live(cfg, StoreAfter(events), db),
                  LatestFailed(w.log, db))
  {
    var w0 := World(remote, map[], []);
    var w1 := Initialize(o, w0, order).w;
    assert LatestAgrees(w1, Foreign(remote)) by {
      assert AllExact(w0);
      hide Initialize, Inductive;
      AllExactInitialize(o, w0, order);
      InitializeLatest(o, w0, order);
    }
    hide LatestAgrees, Tracks, Run, ApplyEvents, Initialize, FailuresInert, OrdersFit, Orderly, Live;
    LatestTracks(o, cfg);
    RunTracks(o, cfg, LatestAgrees, w1, Foreign(remote), events);
    EventsReachWanted(cfg, Foreign(remote), events);
    LatestRead(Run(o, cfg, w1, events), Wanted(cfg, Foreign(remote), StoreAfter(events)), db);
  }

  lemma LatestRead(w: World, want: map<string, set<string>>, db: string)
    requires LatestAgrees(w, want) && db in want
    ensures db in w.remote && AgreeOff(NormSet(w.remote[db]), want[db], LatestFailed(w.log, db))
  {
    hide NormSet, LatestFailed, AllExact;
  }
}

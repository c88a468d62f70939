/** Success from the environment alone: operations, node events and whole runs succeed when the limiter
    grants, nothing is cancelled, and fewer calls fail than there are attempts. */
module Liveness {
  import opened Base
  import opened Config
  import opened Addresses
  import opened AllowList
  import opened NodeWatch
  import opened UpdateProofs
  import opened Agreement
  import opened Reconcile
  import LatestFailures
  import Retry

  // ---------- one attempt ----------

  /** The call that becomes entry n of a log may fail. */
  ghost predicate Refused(o: Oracle, n: nat) {
    !o.grants(n) || !o.reply(n).ok
  }

  /** A failed attempt ended with a call that was refused, and its error names that call. */
  lemma FailedAttempt(o: Oracle, w: World, db: string, ip: string, op: Op)
    requires Attempt(o, w, db, ip, op).err.Some? && db in w.remote
    ensures var a := Attempt(o, w, db, ip, op);
      var last := |a.w.log| - 1;
      && |w.log| <= last
      && Refused(o, last)
      && a.err == Some(if a.w.log[last] == Waited(false) then RateLimiter else Api(o.reply(last).code))
  {
    hide Edited, Modifies;
  }

  // ---------- one operation ----------

  /** The refused entries that lie below a length of the log. */
  ghost function Spent(refused: set<nat>, length: nat): set<nat> {
    set n | n in refused && n < length
  }

  lemma CardinalityMonotone(a: set<nat>, b: set<nat>)
    requires a <= b
    ensures |a| <= |b|
  {
    assert b == a + (b - a);
  }

  lemma SpendsOneMore(refused: set<nat>, earlier: nat, later: nat)
    requires earlier < later && later - 1 in refused
    ensures |Spent(refused, later)| >= |Spent(refused, earlier)| + 1
  {
    CardinalityMonotone(Spent(refused, earlier) + {later - 1}, Spent(refused, later));
  }

  /** All refusals from entry `from` on are in the set. */
  ghost predicate Covers(o: Oracle, from: nat, refused: set<nat>) {
    forall k: nat | from <= k && Refused(o, k) :: k in refused
  }

  ghost predicate AllFail(fn: World -> (World, Option<Error>), w: World, n: nat) {
    forall i: nat | i < n :: fn(Retry.Iterate(fn, w, i)).1.Some?
  }

  /** At least n of the refused calls lie between the two worlds or before them. */
  ghost predicate HasSpent(refused: set<nat>, w: World, v: World, n: nat) {
    |w.log| <= |v.log| && |Spent(refused, |v.log|)| >= n
  }

  /** Every failed attempt uses up a refused call. */
  lemma {:induction false} FailuresAreSpent(o: Oracle, w: World, db: string, ip: string, op: Op,
                                            fn: World -> (World, Option<Error>), refused: set<nat>, n: nat)
    requires db in w.remote && Covers(o, |w.log|, refused)
    requires AllFail(fn, w, n) && fn == AttemptFn(o, db, ip, op)
    ensures HasSpent(refused, w, Retry.Iterate(fn, w, n), n)
  {
    hide Attempt, Refused, Spent, Pending;
    if n == 0 {
    } else {
      FailuresAreSpent(o, w, db, ip, op, fn, refused, n - 1);
      var v := Retry.Iterate(fn, w, n - 1);
      Retry.IterateStep(fn, w, n - 1);
      AttemptsPending(o, w, db, ip, op, n - 1);
      PendingKeys(w, v, db, ip, op);
      FailedAttempt(o, v, db, ip, op);
      SpendsOneMore(refused, |v.log|, |Attempt(o, v, db, ip, op).w.log|);
    }
  }

  lemma PendingKeys(w0: World, w: World, db: string, ip: string, op: Op)
    requires Pending(w0, w, db, ip, op)
    ensures w.remote.Keys == w0.remote.Keys
  {
    hide LocalLog, Edited, Modifies;
  }

  ghost predicate NeverInterrupts(env: nat -> Retry.Pause) {
    forall k: nat :: !Retry.Interrupts(env(k))
  }

  lemma RetrySucceeds(o: Oracle, cfg: Config, w: World, db: string, ip: string, op: Op, env: nat -> Retry.Pause,
                      refused: set<nat>)
    requires cfg.retry.maxAttempts > 0 && db in w.remote && NeverInterrupts(env)
    requires Covers(o, |w.log|, refused)
    requires |refused| < cfg.retry.maxAttempts
    ensures RetryUpdate(o, cfg, w, db, ip, op, env).err.None?
  {
    hide Attempt, Refused, Spent;
    var fn := AttemptFn(o, db, ip, op);
    var r := RetryUpdate(o, cfg, w, db, ip, op, env);
    Retry.Accounting(cfg.retry, fn, Retry.DefaultPolicy(), env, 0, w, None);
    Uninterrupted(env);
    Retry.StopsOnlyOnSuccess(cfg.retry, fn, Retry.DefaultPolicy(), env, w);
    if r.err.Some? {
      FailuresAreSpent(o, w, db, ip, op, fn, refused, cfg.retry.maxAttempts);
      SpentBounded(refused, |r.state.log|);
      assert false;
    }
  }

  lemma Uninterrupted(env: nat -> Retry.Pause)
    requires NeverInterrupts(env)
    ensures Retry.Uninterrupted(Retry.DefaultPolicy(), env)
  {
    forall k: nat ensures !env(k).cancelledBefore && !env(k).cancelledDuring {
      assert !Retry.Interrupts(env(k));
    }
  }

  lemma SpentBounded(refused: set<nat>, length: nat)
    ensures |Spent(refused, length)| <= |refused|
  {
    CardinalityMonotone(Spent(refused, length), refused);
  }

  /** An operation on an existing database succeeds if the limiter grants it, no pause interrupts it, and
      fewer of the later calls are refused than there are attempts. That its entry is already as asked is
      no obstacle. */
  lemma OperationSucceeds(o: Oracle, cfg: Config, w: World, db: string, ip: string, op: Op, refused: set<nat>)
    requires cfg.retry.maxAttempts > 0 && db in w.remote
    requires o.grants(|w.log|) && NeverInterrupts(o.pauses(|w.log| + 1))
    requires Covers(o, |w.log| + 1, refused)
    requires |refused| < cfg.retry.maxAttempts
    ensures UpdateDb(o, cfg, w, db, ip, op).err.None?
  {
    hide RetryUpdate, NeverInterrupts, Refused;
    RetrySucceeds(o, cfg, Wait(o, w).w, db, ip, op, o.pauses(|w.log| + 1), refused);
  }

  // ---------- fan-out, node events, runs ----------

  /** From entry `from` on the limiter grants, nothing interrupts, and the API refuses fewer calls than
      there are attempts. */
  ghost predicate Bearable(o: Oracle, cfg: Config, from: nat, refused: set<nat>) {
    && (forall k: nat | from <= k :: o.grants(k) && NeverInterrupts(o.pauses(k)))
    && (forall k: nat | from <= k && !o.reply(k).ok :: k in refused)
    && |refused| < cfg.retry.maxAttempts
  }

  /** `w'` comes after `w`, and nothing failed between them. */
  ghost predicate Went(w: World, w': World) {
    && |w.log| <= |w'.log|
    && w'.remote.Keys == w.remote.Keys
    && forall db :: Failed(w'.log, db) == Failed(w.log, db)
  }

  lemma UpdateDbGoes(o: Oracle, cfg: Config, w: World, db: string, ip: string, op: Op, refused: set<nat>)
    requires Bearable(o, cfg, |w.log|, refused) && db in w.remote
    ensures UpdateDb(o, cfg, w, db, ip, op).err.None? && Went(w, UpdateDb(o, cfg, w, db, ip, op).w)
  {
    var s := UpdateDb(o, cfg, w, db, ip, op);
    hide UpdateDb, NeverInterrupts, Effect, Failed;
    OperationSucceeds(o, cfg, w, db, ip, op, refused);
    UpdateDbEffect(o, cfg, w, db, ip, op);
    LatestFailures.KeysKept(w, s, db, ip, op);
    LogGrew(w, s, db, ip, op);
    forall d ensures Failed(s.w.log, d) == Failed(w.log, d) {
      FailedAfter(w, s, db, ip, op, d);
      assert Failed(w.log, d) + {} == Failed(w.log, d);
    }
  }

  lemma LogGrew(w: World, s: Step, db: string, ip: string, op: Op)
    requires Effect(w, s, db, ip, op)
    ensures |w.log| <= |s.w.log|
  {
    hide OthersUntouched, Target, Changes;
  }

  lemma BearableLater(o: Oracle, cfg: Config, from: nat, later: nat, refused: set<nat>)
    requires Bearable(o, cfg, from, refused) && from <= later
    ensures Bearable(o, cfg, later, refused)
  {
  }

  lemma {:induction false} FanOutGoes(o: Oracle, cfg: Config, w: World, databases: seq<Database>, ip: string, op: Op,
                                      refused: set<nat>)
    requires Bearable(o, cfg, |w.log|, refused) && Ids(databases) <= w.remote.Keys
    ensures FanOut(o, cfg, w, databases, ip, op).err.None? && Went(w, FanOut(o, cfg, w, databases, ip, op).w)
  {
    hide Bearable, UpdateDb, Failed;
    if databases == [] {
    } else {
      var front, last := databases[..|databases| - 1], databases[|databases| - 1];
      assert databases == front + [last];
      assert last.id in Ids(databases) && Ids(front) <= Ids(databases);
      FanOutGoes(o, cfg, w, front, ip, op, refused);
      var prior := FanOut(o, cfg, w, front, ip, op).w;
      BearableLater(o, cfg, |w.log|, |prior.log|, refused);
      UpdateDbGoes(o, cfg, prior, last.id, ip, op, refused);
    }
  }

  /** UpdateAllowList on a configured pool whose databases exist returns nil. */
  lemma UpdateAllowListGoes(o: Oracle, cfg: Config, w: World, pool: string, ip: string, operation: string,
                            refused: set<nat>)
    requires Bearable(o, cfg, |w.log|, refused) && DatabasesFor(cfg.nodepools, pool) != []
    requires Ids(DatabasesFor(cfg.nodepools, pool)) <= w.remote.Keys
    ensures var s := UpdateAllowList(o, cfg, w, pool, ip, operation);
      s.err.None? && Went(w, s.w)
  {
    hide Bearable, FanOut, OpOf, Failed;
    FanOutGoes(o, cfg, w, DatabasesFor(cfg.nodepools, pool), ip, OpOf(operation), refused);
  }

  lemma {:induction false} HandleIPsGoes(o: Oracle, cfg: Config, w: World, pool: string, ips: seq<string>,
                                         operation: string, refused: set<nat>)
    requires Bearable(o, cfg, |w.log|, refused) && DatabasesFor(cfg.nodepools, pool) != []
    requires Ids(DatabasesFor(cfg.nodepools, pool)) <= w.remote.Keys
    ensures var s := HandleIPs(o, cfg, w, pool, ips, operation);
      s.err.None? && Went(w, s.w)
  {
    hide Bearable, UpdateAllowList, Failed, Ids;
    if ips == [] {
    } else {
      var front := ips[..|ips| - 1];
      HandleIPsGoes(o, cfg, w, pool, front, operation, refused);
      var prior := HandleIPs(o, cfg, w, pool, front, operation).w;
      BearableLater(o, cfg, |w.log|, |prior.log|, refused);
      UpdateAllowListGoes(o, cfg, prior, pool, ips[|ips| - 1], operation, refused);
    }
  }

  /** A node event returns nil exactly when the node has a selected address. */
  lemma NodeEventGoes(o: Oracle, cfg: Config, w: World, node: Node, ips: seq<string>, operation: string,
                      refused: set<nat>)
    requires Validated(cfg) && IsWatched(cfg, node)
    requires Bearable(o, cfg, |w.log|, refused) && NodeDatabases(cfg, node) <= w.remote.Keys
    ensures var s := HandleNodeEvent(o, cfg, w, node, ips, operation);
      (s.err.None? <==> ips != []) && Went(w, s.w)
  {
    ConfiguredPoolHasDatabases(cfg, LabelOf(cfg, node));
    hide Bearable, HandleIPs, Failed, Validated, LabelOf, Ids;
    HandleIPsGoes(o, cfg, w, LabelOf(cfg, node), ips, operation, refused);
  }

  lemma {:induction false} PoolDatabasesConfigured(nodepools: seq<Nodepool>, pool: string)
    ensures Ids(DatabasesFor(nodepools, pool)) <= AllIds(nodepools)
  {
    if nodepools == [] {
    } else {
      PoolDatabasesConfigured(nodepools[1..], pool);
    }
  }

  lemma CallbackGoes(o: Oracle, cfg: Config, w: World, ev: Event, refused: set<nat>)
    requires Validated(cfg) && Bearable(o, cfg, |w.log|, refused) && AllIds(cfg.nodepools) <= w.remote.Keys
    ensures Went(w, Callback(o, cfg, w, ev))
  {
    hide Bearable, HandleNodeEvent, Failed, Validated, IsWatched, LabelOf, Ids, AllIds;
    match ev
    case Added(node, ips) =>
      NodeGoes(o, cfg, w, node, ips, "add", refused);
    case Deleted(node, ips) =>
      NodeGoes(o, cfg, w, node, ips, "delete", refused);
    case Updated(before, after, beforeIPs, afterIPs) =>
      NodeGoes(o, cfg, w, after, afterIPs, "add", refused);
      NodeGoes(o, cfg, w, before, beforeIPs, "delete", refused);
      if IsWatched(cfg, before) {
        var v := HandleNodeEvent(o, cfg, w, before, beforeIPs, "delete").w;
        BearableLater(o, cfg, |w.log|, |v.log|, refused);
        NodeGoes(o, cfg, v, after, afterIPs, "add", refused);
      }
  }

  lemma NodeGoes(o: Oracle, cfg: Config, w: World, node: Node, ips: seq<string>, operation: string, refused: set<nat>)
    requires Validated(cfg) && Bearable(o, cfg, |w.log|, refused) && AllIds(cfg.nodepools) <= w.remote.Keys
    ensures IsWatched(cfg, node) ==> Went(w, HandleNodeEvent(o, cfg, w, node, ips, operation).w)
  {
    hide Bearable, HandleNodeEvent, Went, Validated, IsWatched, LabelOf, Ids, AllIds;
    PoolDatabasesConfigured(cfg.nodepools, LabelOf(cfg, node));
    if IsWatched(cfg, node) {
      NodeEventGoes(o, cfg, w, node, ips, operation, refused);
    }
  }

  lemma {:induction false} RunGoes(o: Oracle, cfg: Config, w: World, events: seq<Event>, refused: set<nat>)
    requires Validated(cfg) && Bearable(o, cfg, |w.log|, refused) && AllIds(cfg.nodepools) <= w.remote.Keys
    ensures Went(w, Run(o, cfg, w, events))
  {
    hide Bearable, Callback, Failed, Validated, AllIds;
    if events == [] {
    } else {
      var front := events[..|events| - 1];
      RunGoes(o, cfg, w, front, refused);
      var prior := Run(o, cfg, w, front);
      BearableLater(o, cfg, |w.log|, |prior.log|, refused);
      CallbackGoes(o, cfg, prior, events[|events| - 1], refused);
    }
  }

  lemma {:induction false} InitializeGoes(o: Oracle, w: World, ids: seq<string>)
    ensures Went(w, Initialize(o, w, ids).w)
  {
    if ids == [] {
    } else {
      hide Failed;
      var front, last := ids[..|ids| - 1], ids[|ids| - 1];
      InitializeGoes(o, w, front);
      FetchGoes(o, Initialize(o, w, front).w, last);
    }
  }

  lemma FetchGoes(o: Oracle, w: World, db: string)
    ensures Went(w, Fetch(o, w, db).w)
  {
    hide Failed;
    var a := Wait(o, w).w;
    forall d ensures Failed(Fetch(o, w, db).w.log, d) == Failed(w.log, d) {
      FailedAppend(w.log, a.log[|w.log|], d);
      FailedAppend(a.log, Get(o, a, db).w.log[|a.log|], d);
    }
  }

  /** The whole controller in a bearable environment: when the configured databases exist and the callbacks
      are orderly, every remote list is exactly the foreign entries and those of the live watched nodes. */
  lemma BearableRunMeetsSpecification(o: Oracle, cfg: Config, remote: map<string, seq<string>>, order: seq<string>,
                                      events: seq<Event>, refused: set<nat>)
    requires Validated(cfg) && AllIds(cfg.nodepools) <= remote.Keys
    requires AllOrdersFit(cfg, events) && Orderly(cfg, Foreign(remote), events)
    requires Bearable(o, cfg, |Initialize(o, World(remote, map[], []), order).w.log|, refused)
    ensures Meets(Controller(o, cfg, remote, order, events), Wanted(cfg, Foreign(remote), StoreAfter(events)))
  {
    var w0 := World(remote, map[], []);
    var w1 := Initialize(o, w0, order).w;
    assert forall db :: Failed(w0.log, db) == {};
    hide Bearable, Run, Initialize, ApplyEvents, Failed, Validated, AllIds, Agrees, Meets, Wanted, OrdersFit, Orderly;
    InitializeGoes(o, w0, order);
    RunGoes(o, cfg, w1, events, refused);
    ControllerAgrees(o, cfg, remote, order, events);
    EventsReachWanted(cfg, Foreign(remote), events);
    MeetsWithoutFailures(Run(o, cfg, w1, events), Wanted(cfg, Foreign(remote), StoreAfter(events)));
  }
}

/** Invariants of whole runs that every single attempt keeps, and what they say: conservation of
    API traffic, coherence and self-stabilisation of the cache, canonical writes, and the survival
    of entries nobody asked to remove. */
module Invariants {
  import opened Base
  import opened Config
  import opened Addresses
  import opened Ordering
  import opened AllowList
  import opened NodeWatch
  import opened Agreement
  import Retry

  // ---------- from one attempt to a run ----------

  /** `P` survives a limiter wait, a completion record and any attempt at an allowed edit. */
  ghost predicate Inductive(o: Oracle, P: World -> bool, allowed: (string, Op) -> bool) {
    && (forall w :: P(w) ==> P(Wait(o, w).w))
    && (forall w, db, ip, op, err :: P(w) ==> P(Record(w, db, ip, op, err)))
    && (forall w, db, ip, op :: P(w) && allowed(ip, op) ==> P(Attempt(o, w, db, ip, op).w))
  }

  lemma {:induction false} AttemptsKeep(o: Oracle, P: World -> bool, allowed: (string, Op) -> bool,
                                        w: World, db: string, ip: string, op: Op, n: nat)
    requires Inductive(o, P, allowed) && P(w) && allowed(ip, op)
    ensures P(Retry.Iterate(AttemptFn(o, db, ip, op), w, n))
  {
    hide Attempt, Inductive;
    if n == 0 {
    } else {
      var fn := AttemptFn(o, db, ip, op);
      AttemptsKeep(o, P, allowed, w, db, ip, op, n - 1);
      Retry.IterateStep(fn, w, n - 1);
      AttemptKeeps(o, P, allowed, Retry.Iterate(fn, w, n - 1), db, ip, op);
    }
  }

  lemma AttemptKeeps(o: Oracle, P: World -> bool, allowed: (string, Op) -> bool, w: World, db: string, ip: string,
                     op: Op)
    requires Inductive(o, P, allowed) && P(w) && allowed(ip, op)
    ensures P(Attempt(o, w, db, ip, op).w)
  {
    hide Attempt;
  }

  lemma RetryKeeps(o: Oracle, cfg: Config, P: World -> bool, allowed: (string, Op) -> bool,
                   w: World, db: string, ip: string, op: Op, env: nat -> Retry.Pause)
    requires cfg.retry.maxAttempts > 0 && Inductive(o, P, allowed) && P(w) && allowed(ip, op)
    ensures P(RetryUpdate(o, cfg, w, db, ip, op, env).state)
  {
    hide Attempt, Inductive;
    var r := RetryUpdate(o, cfg, w, db, ip, op, env);
    Retry.Accounting(cfg.retry, AttemptFn(o, db, ip, op), Retry.DefaultPolicy(), env, 0, w, None);
    AttemptsKeep(o, P, allowed, w, db, ip, op, |r.results|);
  }

  lemma UpdateDbKeeps(o: Oracle, cfg: Config, P: World -> bool, allowed: (string, Op) -> bool,
                      w: World, db: string, ip: string, op: Op)
    requires cfg.retry.maxAttempts > 0 && Inductive(o, P, allowed) && P(w) && allowed(ip, op)
    ensures P(UpdateDb(o, cfg, w, db, ip, op).w)
  {
    hide RetryUpdate, Attempt;
    var a := Wait(o, w);
    if a.err.None? {
      RetryKeeps(o, cfg, P, allowed, a.w, db, ip, op, o.pauses(|a.w.log|));
    }
  }

  lemma {:induction false} FanOutKeeps(o: Oracle, cfg: Config, P: World -> bool, allowed: (string, Op) -> bool,
                                       w: World, databases: seq<Database>, ip: string, op: Op)
    requires cfg.retry.maxAttempts > 0 && Inductive(o, P, allowed) && P(w) && allowed(ip, op)
    ensures P(FanOut(o, cfg, w, databases, ip, op).w)
  {
    hide Inductive, UpdateDb;
    if databases == [] {
    } else {
      var front, last := databases[..|databases| - 1], databases[|databases| - 1];
      FanOutKeeps(o, cfg, P, allowed, w, front, ip, op);
      UpdateDbKeeps(o, cfg, P, allowed, FanOut(o, cfg, w, front, ip, op).w, last.id, ip, op);
    }
  }

  lemma {:induction false} HandleIPsKeeps(o: Oracle, cfg: Config, P: World -> bool, allowed: (string, Op) -> bool,
                                          w: World, pool: string, ips: seq<string>, operation: string)
    requires cfg.retry.maxAttempts > 0 && Inductive(o, P, allowed) && P(w)
    requires forall ip | ip in ips :: allowed(ip, OpOf(operation))
    ensures P(HandleIPs(o, cfg, w, pool, ips, operation).w)
  {
    hide Inductive, FanOut, OpOf;
    if ips == [] {
    } else {
      var front, last := ips[..|ips| - 1], ips[|ips| - 1];
      HandleIPsKeeps(o, cfg, P, allowed, w, pool, front, operation);
      FanOutKeeps(o, cfg, P, allowed, HandleIPs(o, cfg, w, pool, front, operation).w,
                  DatabasesFor(cfg.nodepools, pool), last, OpOf(operation));
    }
  }

  function OldIPs(ev: Event): seq<string> {
    match ev
    case Added(_, _) => []
    case Deleted(_, ips) => ips
    case Updated(_, _, beforeIPs, _) => beforeIPs
  }

  function NewIPs(ev: Event): seq<string> {
    match ev
    case Added(_, ips) => ips
    case Deleted(_, _) => []
    case Updated(_, _, _, afterIPs) => afterIPs
  }

  /** The IPs that a callback removes: none if it only updates a node inside its pool, or concerns a node
      that was not watched. */
  ghost function RemovedIPs(cfg: Config, ev: Event): set<string> {
    if Removes(cfg, ev) then Elements(OldIPs(ev)) else {}
  }

  ghost function AddedIPs(cfg: Config, ev: Event): set<string> {
    if Adds(cfg, ev) then Elements(NewIPs(ev)) else {}
  }

  /** Every edit a callback asks for is allowed. */
  ghost predicate EventAllowed(cfg: Config, ev: Event, allowed: (string, Op) -> bool) {
    && (forall ip | ip in RemovedIPs(cfg, ev) :: allowed(ip, Remove))
    && (forall ip | ip in AddedIPs(cfg, ev) :: allowed(ip, Add))
  }

  lemma CallbackKeeps(o: Oracle, cfg: Config, P: World -> bool, allowed: (string, Op) -> bool, w: World, ev: Event)
    requires cfg.retry.maxAttempts > 0 && Inductive(o, P, allowed) && P(w) && EventAllowed(cfg, ev, allowed)
    ensures P(Callback(o, cfg, w, ev))
  {
    hide Inductive, HandleIPs, IsWatched;
    assert OpOf("add") == Add && OpOf("delete") == Remove;
    assert forall ip | ip in OldIPs(ev) :: ip in Elements(OldIPs(ev));
    assert forall ip | ip in NewIPs(ev) :: ip in Elements(NewIPs(ev));
    var v := w;
    if Removes(cfg, ev) {
      var node := OldNode(ev).value;
      HandleIPsKeeps(o, cfg, P, allowed, w, LabelOf(cfg, node), OldIPs(ev), "delete");
      v := HandleNodeEvent(o, cfg, w, node, OldIPs(ev), "delete").w;
    }
    if Adds(cfg, ev) {
      HandleIPsKeeps(o, cfg, P, allowed, v, LabelOf(cfg, NewNode(ev).value), NewIPs(ev), "add");
    }
  }

  lemma {:induction false} RunKeeps(o: Oracle, cfg: Config, P: World -> bool, allowed: (string, Op) -> bool, w: World,
                                    events: seq<Event>)
    requires cfg.retry.maxAttempts > 0 && Inductive(o, P, allowed) && P(w)
    requires forall i | 0 <= i < |events| :: EventAllowed(cfg, events[i], allowed)
    ensures P(Run(o, cfg, w, events))
  {
    hide Inductive, Callback, EventAllowed;
    if events == [] {
    } else {
      RunKeeps(o, cfg, P, allowed, w, events[..|events| - 1]);
      CallbackKeeps(o, cfg, P, allowed, Run(o, cfg, w, events[..|events| - 1]), events[|events| - 1]);
    }
  }

  ghost predicate Anything(ip: string, op: Op) {
    true
  }

  // ---------- conservation of API traffic ----------

  /** For each database: one GET for every PUT that succeeded, and one for the list that is cached. */
  ghost predicate Balanced(w: World) {
    forall db :: Gets(w.log, db) == Puts(w.log, db) + (if db in w.cache then 1 else 0)
  }

  lemma CountAppend(log: seq<Call>, c: Call, db: string)
    ensures Gets(log + [c], db) == Gets(log, db) + (if c == Got(db, true) then 1 else 0)
    ensures Puts(log + [c], db) == Puts(log, db) + (if c.Put? && c.db == db && c.ok then 1 else 0)
  {
    assert (log + [c])[..|log|] == log;
  }

  lemma BalancedWait(o: Oracle, w: World)
    requires Balanced(w)
    ensures Balanced(Wait(o, w).w)
  {
    forall db { CountAppend(w.log, Waited(o.grants(|w.log|)), db); }
  }

  lemma BalancedRecord(w: World, db: string, ip: string, op: Op, err: Option<Error>)
    requires Balanced(w)
    ensures Balanced(Record(w, db, ip, op, err))
  {
    forall d { CountAppend(w.log, Done(db, ip, op, err), d); }
  }

  lemma BalancedFetch(o: Oracle, w: World, db: string)
    requires Balanced(w) && db !in w.cache
    ensures Balanced(Fetch(o, w, db).w)
  {
    hide Gets, Puts;
    BalancedWait(o, w);
    var a := Wait(o, w).w;
    var ok := o.reply(|a.log|).ok && db in a.remote;
    forall d { CountAppend(a.log, Got(db, ok), d); }
  }

  lemma BalancedWriteBack(o: Oracle, w: World, db: string, list: seq<string>)
    requires Balanced(w) && db in w.cache
    ensures Balanced(WriteBack(o, w, db, list).w)
  {
    hide Gets, Puts;
    var ok := db in w.remote && o.reply(|w.log|).ok;
    forall d { CountAppend(w.log, Put(db, list, ok), d); }
  }

  lemma BalancedAttempt(o: Oracle, w: World, db: string, ip: string, op: Op)
    requires Balanced(w)
    ensures Balanced(Attempt(o, w, db, ip, op).w)
  {
    hide Balanced, Fetch, WriteBack, Edited, Modifies;
    if db !in w.cache {
      BalancedFetch(o, w, db);
    }
    var a := Load(o, w, db);
    if a.err.None? {
      BalancedWriteBack(o, a.w, db, Edited(a.w.cache[db], ip, op));
    }
  }

  lemma BalancedInductive(o: Oracle)
    ensures Inductive(o, Balanced, Anything)
  {
    hide Balanced, Attempt, Wait, Record;
    forall w | Balanced(w) ensures Balanced(Wait(o, w).w) { BalancedWait(o, w); }
    forall w, db, ip, op, err | Balanced(w) ensures Balanced(Record(w, db, ip, op, err)) {
      BalancedRecord(w, db, ip, op, err);
    }
    forall w, db, ip, op | Balanced(w) ensures Balanced(Attempt(o, w, db, ip, op).w) {
      BalancedAttempt(o, w, db, ip, op);
    }
  }

  lemma {:induction false} BalancedInitialize(o: Oracle, w: World, ids: seq<string>)
    requires Balanced(w) && NoDuplicates(ids) && forall id | id in ids :: id !in w.cache
    ensures Balanced(Initialize(o, w, ids).w)
    ensures forall d | d in Initialize(o, w, ids).w.cache :: d in w.cache || d in ids
  {
    hide Balanced;
    if ids == [] {
    } else {
      var front, last := ids[..|ids| - 1], ids[|ids| - 1];
      BalancedInitialize(o, w, front);
      BalancedFetch(o, Initialize(o, w, front).w, last);
    }
  }

  /** Conservation: in every run with one initialisation of the empty cache, every successful GET of
      a database is matched by a successful PUT to it, except the one whose list is cached. */
  lemma TrafficConserved(o: Oracle, cfg: Config, remote: map<string, seq<string>>, order: seq<string>,
                         events: seq<Event>)
    requires Validated(cfg) && NoDuplicates(order)
    ensures Balanced(Controller(o, cfg, remote, order, events))
  {
    var w0 := World(remote, map[], []);
    assert Balanced(w0);
    hide Balanced, Run, Initialize, Inductive;
    BalancedInductive(o);
    BalancedInitialize(o, w0, order);
    RunKeeps(o, cfg, Balanced, Anything, Initialize(o, w0, order).w, events);
  }

  // ---------- the limiter ----------

  /** Every GET comes directly after a wait that the limiter granted. */
  ghost predicate Granted(w: World) {
    forall i | 0 <= i < |w.log| && w.log[i].Got? :: i > 0 && w.log[i - 1] == Waited(true)
  }

  lemma GrantedFetch(o: Oracle, w: World, db: string)
    requires Granted(w)
    ensures Granted(Fetch(o, w, db).w)
  {
  }

  lemma GrantedAttempt(o: Oracle, w: World, db: string, ip: string, op: Op)
    requires Granted(w)
    ensures Granted(Attempt(o, w, db, ip, op).w)
  {
    hide Edited, Modifies, Fetch;
    GrantedFetch(o, w, db);
  }

  lemma GrantedInductive(o: Oracle)
    ensures Inductive(o, Granted, Anything)
  {
    hide Attempt;
    forall w, db, ip, op | Granted(w) ensures Granted(Attempt(o, w, db, ip, op).w) {
      GrantedAttempt(o, w, db, ip, op);
    }
  }

  lemma {:induction false} GrantedInitialize(o: Oracle, w: World, ids: seq<string>)
    requires Granted(w)
    ensures Granted(Initialize(o, w, ids).w)
  {
    if ids == [] {
    } else {
      hide Fetch, Granted;
      GrantedInitialize(o, w, ids[..|ids| - 1]);
      GrantedFetch(o, Initialize(o, w, ids[..|ids| - 1]).w, ids[|ids| - 1]);
    }
  }

  /** In every run no list is read without the limiter's leave. */
  lemma EveryGetGranted(o: Oracle, cfg: Config, remote: map<string, seq<string>>, order: seq<string>,
                        events: seq<Event>)
    requires Validated(cfg)
    ensures Granted(Controller(o, cfg, remote, order, events))
  {
    var w0 := World(remote, map[], []);
    assert Granted(w0);
    hide Run, Initialize, Inductive, Granted;
    GrantedInductive(o);
    GrantedInitialize(o, w0, order);
    RunKeeps(o, cfg, Granted, Anything, Initialize(o, w0, order).w, events);
  }

  function WriteCount(log: seq<Call>): nat {
    if log == [] then 0
    else WriteCount(log[..|log| - 1]) + (if log[|log| - 1].Put? then 1 else 0)
  }

  lemma WritesAppend(log: seq<Call>, c: Call)
    ensures WriteCount(log + [c]) == WriteCount(log) + (if c.Put? then 1 else 0)
  {
    assert (log + [c])[..|log|] == log;
  }

  lemma FetchWritesNothing(o: Oracle, w: World, db: string)
    ensures w.log <= Fetch(o, w, db).w.log && WriteCount(Fetch(o, w, db).w.log) == WriteCount(w.log)
  {
    hide WriteCount;
    var a := Wait(o, w).w;
    WritesAppend(w.log, a.log[|w.log|]);
    WritesAppend(a.log, Get(o, a, db).w.log[|a.log|]);
  }

  lemma AttemptWritesOnce(o: Oracle, w: World, db: string, ip: string, op: Op)
    ensures var w' := Attempt(o, w, db, ip, op).w;
      w.log <= w'.log && WriteCount(w'.log) <= WriteCount(w.log) + 1
  {
    hide Edited, Modifies, Fetch, WriteCount;
    FetchWritesNothing(o, w, db);
    var a := Load(o, w, db);
    if a.err.None? {
      WritesAppend(a.w.log, PutList(o, a.w, db, Edited(a.w.cache[db], ip, op)).w.log[|a.w.log|]);
    }
  }

  lemma {:induction false} AttemptsWrite(o: Oracle, w: World, db: string, ip: string, op: Op, n: nat)
    ensures var w' := Retry.Iterate(AttemptFn(o, db, ip, op), w, n);
      w.log <= w'.log && WriteCount(w'.log) <= WriteCount(w.log) + n
  {
    hide Attempt, WriteCount;
    if n == 0 {
    } else {
      var fn := AttemptFn(o, db, ip, op);
      AttemptsWrite(o, w, db, ip, op, n - 1);
      Retry.IterateStep(fn, w, n - 1);
      AttemptWritesOnce(o, Retry.Iterate(fn, w, n - 1), db, ip, op);
    }
  }

  /** An operation asks the limiter before anything else and gives up at once if that is refused; it writes
      at most as often as it may attempt, and its last entry is its own record. */
  lemma OperationTraffic(o: Oracle, cfg: Config, w: World, db: string, ip: string, op: Op)
    requires cfg.retry.maxAttempts > 0
    ensures var s := UpdateDb(o, cfg, w, db, ip, op);
      && w.log + [Waited(o.grants(|w.log|))] < s.w.log
      && s.w.log[|s.w.log| - 1] == Done(db, ip, op, s.err)
      && (!o.grants(|w.log|) ==>
            s.w.log == w.log + [Waited(false), Done(db, ip, op, Some(RateLimiter))]
            && s.w.remote == w.remote && s.w.cache == w.cache)
      && WriteCount(s.w.log) <= WriteCount(w.log) + cfg.retry.maxAttempts
  {
    hide WriteCount, Attempt, Retry.Iterate, Retry.RetryFrom;
    var a := Wait(o, w);
    WritesAppend(w.log, a.w.log[|w.log|]);
    if a.err.Some? {
      WritesAppend(a.w.log, Done(db, ip, op, a.err));
    } else {
      var r := RetryUpdate(o, cfg, a.w, db, ip, op, o.pauses(|a.w.log|));
      Retry.Accounting(cfg.retry, AttemptFn(o, db, ip, op), Retry.DefaultPolicy(), o.pauses(|a.w.log|), 0, a.w, None);
      AttemptsWrite(o, a.w, db, ip, op, |r.results|);
      WritesAppend(r.state.log, Done(db, ip, op, r.err));
    }
  }

  // ---------- PUTs that fail without effect ----------

  /** A PUT that reports an error has not taken effect. */
  ghost predicate FailuresInert(o: Oracle) {
    forall n: nat :: !o.reply(n).ok ==> !o.reply(n).applied
  }

  /** What the cache says of a database is what the remote side says, list for list. */
  ghost predicate Exact(w: World, db: string) {
    db in w.cache ==> db in w.remote && w.cache[db] == w.remote[db]
  }

  lemma ExactAttempt(o: Oracle, w: World, db: string, ip: string, op: Op, d: string)
    requires FailuresInert(o) && Exact(w, d)
    ensures Exact(Attempt(o, w, db, ip, op).w, d)
  {
    hide Edited, Modifies;
  }

  ghost predicate AllExact(w: World) {
    forall db | db in w.cache :: db in w.remote && w.cache[db] == w.remote[db]
  }

  lemma AllExactInductive(o: Oracle)
    requires FailuresInert(o)
    ensures Inductive(o, AllExact, Anything)
  {
    hide Attempt;
    forall w, db, ip, op | AllExact(w) ensures AllExact(Attempt(o, w, db, ip, op).w) {
      var v := Attempt(o, w, db, ip, op).w;
      forall d | d in v.cache ensures d in v.remote && v.cache[d] == v.remote[d] {
        assert Exact(w, d);
        ExactAttempt(o, w, db, ip, op, d);
      }
    }
  }

  lemma {:induction false} AllExactInitialize(o: Oracle, w: World, ids: seq<string>)
    requires AllExact(w)
    ensures AllExact(Initialize(o, w, ids).w)
  {
    if ids == [] {
    } else {
      AllExactInitialize(o, w, ids[..|ids| - 1]);
    }
  }

  /** If failed PUTs have no effect, every cached list equals the remote list in every run. */
  lemma CacheExactWhenFailuresInert(o: Oracle, cfg: Config, remote: map<string, seq<string>>, order: seq<string>,
                                    events: seq<Event>)
    requires Validated(cfg) && FailuresInert(o)
    ensures AllExact(Controller(o, cfg, remote, order, events))
  {
    var w0 := World(remote, map[], []);
    assert AllExact(w0);
    hide Run, Initialize, Inductive, AllExact;
    AllExactInductive(o);
    AllExactInitialize(o, w0, order);
    RunKeeps(o, cfg, AllExact, Anything, Initialize(o, w0, order).w, events);
  }

  // ---------- self-stabilisation ----------

  /** Once a PUT to `db` has succeeded, its cache entry is exact. */
  ghost predicate Stabilised(w: World, db: string) {
    Puts(w.log, db) > 0 ==> Exact(w, db)
  }

  lemma StabilisedFetch(o: Oracle, w: World, db: string, d: string)
    requires Stabilised(w, d)
    ensures Stabilised(Fetch(o, w, db).w, d)
  {
    hide Puts, Gets;
    var a := Wait(o, w);
    CountAppend(w.log, a.w.log[|w.log|], d);
    var g := Get(o, a.w, db);
    CountAppend(a.w.log, g.w.log[|a.w.log|], d);
  }

  lemma StabilisedWriteBack(o: Oracle, w: World, db: string, list: seq<string>, d: string)
    requires FailuresInert(o) && Stabilised(w, d)
    ensures Stabilised(WriteBack(o, w, db, list).w, d)
  {
    hide Puts, Gets;
    CountAppend(w.log, PutList(o, w, db, list).w.log[|w.log|], d);
  }

  lemma StabilisedAttempt(o: Oracle, w: World, db: string, ip: string, op: Op, d: string)
    requires FailuresInert(o) && Stabilised(w, d)
    ensures Stabilised(Attempt(o, w, db, ip, op).w, d)
  {
    hide Stabilised, Fetch, WriteBack, Edited, Modifies;
    StabilisedFetch(o, w, db, d);
    var a := Load(o, w, db);
    if a.err.None? {
      StabilisedWriteBack(o, a.w, db, Edited(a.w.cache[db], ip, op), d);
    }
  }

  lemma StabilisedInductive(o: Oracle, d: string, P: World -> bool)
    requires FailuresInert(o) && forall w :: P(w) == Stabilised(w, d)
    ensures Inductive(o, P, Anything)
  {
    hide Attempt, Puts, Gets;
    forall w | P(w) ensures P(Wait(o, w).w) {
      CountAppend(w.log, Waited(o.grants(|w.log|)), d);
    }
    forall w, db, ip, op, err | P(w) ensures P(Record(w, db, ip, op, err)) {
      CountAppend(w.log, Done(db, ip, op, err), d);
    }
    forall w, db, ip, op | P(w) ensures P(Attempt(o, w, db, ip, op).w) {
      StabilisedAttempt(o, w, db, ip, op, d);
    }
  }

  /** Self-stabilisation: from any world with an empty log, however stale its cache, after the first
      successful PUT to a database its cache entry, whenever present, equals the remote list. */
  lemma CacheStabilises(o: Oracle, cfg: Config, w: World, events: seq<Event>, db: string)
    requires Validated(cfg) && FailuresInert(o) && w.log == []
    ensures var w' := Run(o, cfg, w, events);
      Puts(w'.log, db) > 0 ==> db in w'.cache ==> db in w'.remote && w'.cache[db] == w'.remote[db]
  {
    var P := (v: World) => Stabilised(v, db);
    assert P(w);
    assert P(Run(o, cfg, w, events)) by {
      hide Run, Inductive, Stabilised;
      StabilisedInductive(o, db, P);
      RunKeeps(o, cfg, P, Anything, w, events);
    }
  }

  // ---------- canonical writes ----------

  ghost predicate Canonical(list: seq<string>) {
    StrictlySorted(list) && Normalised(Elements(list))
  }

  ghost predicate WritesCanonical(w: World) {
    forall i | 0 <= i < |w.log| && w.log[i].Put? :: Canonical(w.log[i].list)
  }

  lemma EditedCanonical(list: seq<string>, ip: string, op: Op)
    ensures Canonical(Edited(list, ip, op))
  {
    NormSetNormalised(list);
  }

  lemma WritesCanonicalAttempt(o: Oracle, w: World, db: string, ip: string, op: Op)
    requires WritesCanonical(w)
    ensures WritesCanonical(Attempt(o, w, db, ip, op).w)
  {
    hide Edited, Modifies, Canonical;
    var a := Load(o, w, db);
    assert WritesCanonical(a.w);
    if a.err.None? {
      EditedCanonical(a.w.cache[db], ip, op);
    }
  }

  /** Every list ever written is strictly sorted, without duplicates and fully normalised. */
  lemma EveryWriteCanonical(o: Oracle, cfg: Config, w: World, events: seq<Event>)
    requires Validated(cfg) && WritesCanonical(w)
    ensures WritesCanonical(Run(o, cfg, w, events))
  {
    hide Run, Canonical;
    assert Inductive(o, WritesCanonical, Anything) by {
      hide Attempt;
      forall v, db, ip, op | WritesCanonical(v) ensures WritesCanonical(Attempt(o, v, db, ip, op).w) {
        WritesCanonicalAttempt(o, v, db, ip, op);
      }
    }
    hide Inductive;
    RunKeeps(o, cfg, WritesCanonical, Anything, w, events);
  }

  // ---------- entries nobody removes ----------

  /** `entry` is in the list of `db`, remotely and in the cache. */
  ghost predicate Present(w: World, db: string, entry: string) {
    && db in w.remote && entry in NormSet(w.remote[db])
    && (db in w.cache ==> entry in NormSet(w.cache[db]))
  }

  lemma PresentAttempt(o: Oracle, w: World, db: string, ip: string, op: Op, d: string, entry: string)
    requires Present(w, d, entry) && (op == Add || NormalizeIP(ip) != entry)
    ensures Present(Attempt(o, w, db, ip, op).w, d, entry)
  {
    hide NormSet, Edited, Modifies;
    var a := Load(o, w, db);
    if a.err.None? {
      EditedSet(a.w.cache[db], ip, op);
    }
  }

  lemma PresentInductive(o: Oracle, d: string, entry: string, P: World -> bool, allowed: (string, Op) -> bool)
    requires forall w :: P(w) == Present(w, d, entry)
    requires forall ip, op :: allowed(ip, op) == (op == Add || NormalizeIP(ip) != entry)
    ensures Inductive(o, P, allowed)
  {
    hide Attempt, NormSet;
    forall w, db, ip, op | P(w) && allowed(ip, op) ensures P(Attempt(o, w, db, ip, op).w) {
      PresentAttempt(o, w, db, ip, op, d, entry);
    }
  }

  /** No run removes an entry, whatever fails and whatever failed PUTs do, unless the entry is the
      normal form of an IP that a callback removed: one of a watched node that was deleted, left its pool
      or moved. Updates inside a pool and callbacks of unwatched nodes remove nothing. */
  lemma UnremovedEntriesSurvive(o: Oracle, cfg: Config, w: World, events: seq<Event>, db: string, entry: string)
    requires Validated(cfg) && Present(w, db, entry)
    requires forall i, ip | 0 <= i < |events| && ip in RemovedIPs(cfg, events[i]) :: NormalizeIP(ip) != entry
    ensures Present(Run(o, cfg, w, events), db, entry)
  {
    var P := (v: World) => Present(v, db, entry);
    var allowed := (ip: string, op: Op) => op == Add || NormalizeIP(ip) != entry;
    forall i | 0 <= i < |events| ensures EventAllowed(cfg, events[i], allowed) {
      hide RemovedIPs, AddedIPs;
      assert forall ip | ip in RemovedIPs(cfg, events[i]) :: allowed(ip, Remove);
    }
    hide Run, Inductive, Present, EventAllowed;
    PresentInductive(o, db, entry, P, allowed);
    RunKeeps(o, cfg, P, allowed, w, events);
  }

  /** Subnets and open-access entries persist verbatim: when node addresses carry no '/', an entry
      with a '/' that is not some address followed by "/32" or "/128" is never removed. */
  lemma SubnetsPersist(o: Oracle, cfg: Config, w: World, events: seq<Event>, db: string, entry: string)
    requires Validated(cfg) && Present(w, db, entry) && !HostEntry(entry)
    requires forall i, ip | 0 <= i < |events| && ip in RemovedIPs(cfg, events[i]) :: '/' !in ip
    ensures var w' := Run(o, cfg, w, events);
      db in w'.remote && entry in w'.remote[db]
  {
    forall i, ip | 0 <= i < |events| && ip in RemovedIPs(cfg, events[i]) ensures NormalizeIP(ip) != entry {
      NormalizeGivesHostEntry(ip);
    }
    hide Run, HostEntry;
    UnremovedEntriesSurvive(o, cfg, w, events, db, entry);
    NonHostEntryIsVerbatim(Run(o, cfg, w, events).remote[db], entry);
  }

  lemma OpenAccessPersists(o: Oracle, cfg: Config, w: World, events: seq<Event>, db: string)
    requires Validated(cfg) && Present(w, db, "0.0.0.0/0")
    requires forall i, ip | 0 <= i < |events| && ip in RemovedIPs(cfg, events[i]) :: '/' !in ip
    ensures var w' := Run(o, cfg, w, events);
      db in w'.remote && "0.0.0.0/0" in w'.remote[db]
  {
    var e := "0.0.0.0/0";
    assert e[|e| - 3] == '0' && e[|e| - 4] == '.';
    assert "/32"[0] == '/' && "/128"[0] == '/';
    SubnetsPersist(o, cfg, w, events, db, e);
  }
}

/** What one database operation does to the world, whatever the environment does. */
module UpdateProofs {
  import opened Base
  import opened Config
  import opened Addresses
  import opened AllowList
  import Retry

  /** The list an operation on `db` works from: the cached one if there is one. */
  ghost function Basis(w: World, db: string): seq<string> {
    if db in w.cache then w.cache[db] else if db in w.remote then w.remote[db] else []
  }

  /** Whether the operation asks for a change of that list. */
  ghost predicate Changes(w: World, db: string, ip: string, op: Op) {
    Modifies(Basis(w, db), ip, op)
  }

  /** The one list that the operation may write. */
  ghost function Target(w: World, db: string, ip: string, op: Op): seq<string> {
    Edited(Basis(w, db), ip, op)
  }

  /** The boundary calls an operation on `db` may make. */
  ghost predicate Local(c: Call, db: string, target: seq<string>) {
    c.Waited? || (c.Got? && c.db == db) || (c.Put? && c.db == db && c.list == target)
  }

  ghost predicate LocalLog(w0: World, w: World, db: string, target: seq<string>) {
    w0.log <= w.log && forall i | |w0.log| <= i < |w.log| :: Local(w.log[i], db, target)
  }

  ghost predicate OthersUntouched(w0: World, w: World, db: string) {
    && w.remote.Keys == w0.remote.Keys
    && (forall d | d in w0.remote && d != db :: w.remote[d] == w0.remote[d])
    && (forall d | d != db :: d in w.cache <==> d in w0.cache)
    && (forall d | d != db && d in w0.cache :: w.cache[d] == w0.cache[d])
  }

  /** After failed attempts: the remote list is the old one or already the target, and a cached list
      is still the basis. */
  ghost predicate Pending(w0: World, w: World, db: string, ip: string, op: Op) {
    && OthersUntouched(w0, w, db)
    && LocalLog(w0, w, db, Target(w0, db, ip, op))
    && (db in w0.remote ==>
          w.remote[db] == w0.remote[db] || (Changes(w0, db, ip, op) && w.remote[db] == Target(w0, db, ip, op)))
    && (db in w.cache ==> w.cache[db] == Basis(w0, db) && (db in w0.cache || db in w0.remote))
    && (db !in w.cache ==> db !in w0.cache && w.remote == w0.remote)
  }

  /** After a successful attempt: the target is written and the cache entry dropped, or nothing was to change. */
  ghost predicate Settled(w0: World, w: World, db: string, ip: string, op: Op) {
    && OthersUntouched(w0, w, db)
    && LocalLog(w0, w, db, Target(w0, db, ip, op))
    && (db in w0.cache || db in w0.remote)
    && (if Changes(w0, db, ip, op)
        then db in w.remote && w.remote[db] == Target(w0, db, ip, op) && db !in w.cache
        else w.remote == w0.remote && db in w.cache && w.cache[db] == Basis(w0, db))
  }

  lemma LoadEffect(o: Oracle, w0: World, w: World, db: string, ip: string, op: Op)
    requires Pending(w0, w, db, ip, op)
    ensures var a := Load(o, w, db);
      && Pending(w0, a.w, db, ip, op)
      && (a.err.None? ==> db in a.w.cache && a.w.cache[db] == Basis(w0, db))
  {
  }

  lemma WriteBackEffect(o: Oracle, w0: World, w: World, db: string, ip: string, op: Op)
    requires Pending(w0, w, db, ip, op)
    requires db in w.cache && w.cache[db] == Basis(w0, db) && Changes(w0, db, ip, op)
    ensures var a := WriteBack(o, w, db, Target(w0, db, ip, op));
      if a.err.Some? then Pending(w0, a.w, db, ip, op) else Settled(w0, a.w, db, ip, op)
  {
    hide Edited, Modifies, NormSet;
  }

  lemma AttemptEffect(o: Oracle, w0: World, w: World, db: string, ip: string, op: Op)
    requires Pending(w0, w, db, ip, op)
    ensures var a := Attempt(o, w, db, ip, op);
      if a.err.Some? then Pending(w0, a.w, db, ip, op) else Settled(w0, a.w, db, ip, op)
  {
    hide Edited, Modifies, NormSet, WriteBack, Load;
    LoadEffect(o, w0, w, db, ip, op);
    var a := Load(o, w, db);
    if a.err.None? && Changes(w0, db, ip, op) {
      WriteBackEffect(o, w0, a.w, db, ip, op);
    }
  }

  lemma PendingAtStart(w: World, db: string, ip: string, op: Op)
    ensures Pending(w, w, db, ip, op)
  {
  }

  lemma {:induction false} AttemptsPending(o: Oracle, w: World, db: string, ip: string, op: Op, n: nat)
    requires forall i: nat | i < n :: AttemptFn(o, db, ip, op)(Retry.Iterate(AttemptFn(o, db, ip, op), w, i)).1.Some?
    ensures Pending(w, Retry.Iterate(AttemptFn(o, db, ip, op), w, n), db, ip, op)
  {
    hide Pending, Settled, Attempt;
    if n == 0 {
      PendingAtStart(w, db, ip, op);
    } else {
      var fn := AttemptFn(o, db, ip, op);
      AttemptsPending(o, w, db, ip, op, n - 1);
      Retry.IterateStep(fn, w, n - 1);
      AttemptEffect(o, w, Retry.Iterate(fn, w, n - 1), db, ip, op);
    }
  }

  /** The retried closure as a whole. */
  lemma {:induction false} RetryEffect(o: Oracle, cfg: Config, w: World, db: string, ip: string, op: Op,
                                       env: nat -> Retry.Pause)
    requires cfg.retry.maxAttempts > 0
    ensures var r := RetryUpdate(o, cfg, w, db, ip, op, env);
      if r.err.Some? then Pending(w, r.state, db, ip, op) else Settled(w, r.state, db, ip, op)
  {
    hide Pending, Settled, Attempt;
    var fn := AttemptFn(o, db, ip, op);
    var r := RetryUpdate(o, cfg, w, db, ip, op, env);
    Retry.Accounting(cfg.retry, fn, Retry.DefaultPolicy(), env, 0, w, None);
    var n := |r.results| - 1;
    AttemptsPending(o, w, db, ip, op, n);
    Retry.IterateStep(fn, w, n);
    AttemptEffect(o, w, Retry.Iterate(fn, w, n), db, ip, op);
  }

  /** One call of updateDatabaseAllowList. It ends with its completion record; nil means `Settled`,
      an error `Pending`. In both cases every list it wrote is the one target, however often PUTs
      were retried and whichever of them took effect. */
  ghost predicate Effect(w0: World, s: Step, db: string, ip: string, op: Op) {
    && s.w.log != []
    && var w := s.w.(log := s.w.log[..|s.w.log| - 1]);
    && s.w == Record(w, db, ip, op, s.err)
    && (if s.err.Some? then Pending(w0, w, db, ip, op) else Settled(w0, w, db, ip, op))
  }

  lemma SameUpToLog(w0: World, w1: World, w: World, db: string, ip: string, op: Op)
    requires w1.remote == w0.remote && w1.cache == w0.cache
    requires LocalLog(w0, w1, db, Target(w0, db, ip, op))
    ensures Pending(w1, w, db, ip, op) ==> Pending(w0, w, db, ip, op)
    ensures Settled(w1, w, db, ip, op) ==> Settled(w0, w, db, ip, op)
  {
    assert Basis(w1, db) == Basis(w0, db);
  }

  lemma {:induction false} UpdateDbEffect(o: Oracle, cfg: Config, w: World, db: string, ip: string, op: Op)
    requires cfg.retry.maxAttempts > 0
    ensures Effect(w, UpdateDb(o, cfg, w, db, ip, op), db, ip, op)
  {
    hide RetryUpdate, Edited, Modifies, NormSet;
    var a := Wait(o, w);
    var s := UpdateDb(o, cfg, w, db, ip, op);
    if a.err.Some? {
      assert s.w.(log := s.w.log[..|s.w.log| - 1]) == a.w;
    } else {
      var r := RetryUpdate(o, cfg, a.w, db, ip, op, o.pauses(|a.w.log|));
      RetryEffect(o, cfg, a.w, db, ip, op, o.pauses(|a.w.log|));
      SameUpToLog(w, a.w, r.state, db, ip, op);
      assert s.w.log[..|s.w.log| - 1] == r.state.log;
    }
  }
}

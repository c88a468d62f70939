/** UpdateAllowList attempts every database of its pool, once per configured entry and in order,
    whatever fails on the way, and touches no other. */
module FanOutProofs {
  import opened Base
  import opened Config
  import opened Ordering
  import opened AllowList
  import opened NodeWatch
  import opened UpdateProofs
  import opened Determinism

  lemma OperationsAppend(log: seq<Call>, c: Call)
    ensures Operations(log + [c]) == Operations(log) + (if c.Done? then [c] else [])
  {
    assert (log + [c])[..|log|] == log;
  }

  lemma {:induction false} OperationsLocal(log0: seq<Call>, log: seq<Call>)
    requires log0 <= log && forall i | |log0| <= i < |log| :: !log[i].Done?
    ensures Operations(log) == Operations(log0)
  {
    if log != log0 {
      OperationsLocal(log0, log[..|log| - 1]);
    }
  }

  /** One operation leaves one completion record, its own, saying what it returned. */
  lemma OneRecord(o: Oracle, cfg: Config, w: World, db: string, ip: string, op: Op)
    requires cfg.retry.maxAttempts > 0
    ensures var s := UpdateDb(o, cfg, w, db, ip, op);
      Operations(s.w.log) == Operations(w.log) + [Done(db, ip, op, s.err)]
  {
    hide UpdateDb, Effect, Operations, Target;
    var s := UpdateDb(o, cfg, w, db, ip, op);
    UpdateDbEffect(o, cfg, w, db, ip, op);
    EffectLog(w, s, db, ip, op);
    var front := s.w.log[..|s.w.log| - 1];
    OperationsLocal(w.log, front);
    OperationsAppend(front, Done(db, ip, op, s.err));
    assert s.w.log == front + [Done(db, ip, op, s.err)];
  }

  /** The records of one operation per database with the given results. */
  ghost predicate RecordsOf(calls: seq<Call>, databases: seq<Database>, ip: string, op: Op,
                            results: seq<Option<Error>>)
  {
    && |calls| == |databases| == |results|
    && forall i | 0 <= i < |databases| :: calls[i] == Done(databases[i].id, ip, op, results[i])
  }

  ghost predicate OnlyTouches(w: World, w': World, dbs: set<string>) {
    && w'.remote.Keys == w.remote.Keys
    && (forall d | d in w.remote && d !in dbs :: w'.remote[d] == w.remote[d])
    && (forall d | d !in dbs :: d in w'.cache <==> d in w.cache)
    && (forall d | d !in dbs && d in w.cache :: w'.cache[d] == w.cache[d])
  }

  /** What a fan-out has done when its operations returned `results`. */
  ghost predicate Completed(w: World, s: Step, databases: seq<Database>, ip: string, op: Op,
                            results: seq<Option<Error>>)
  {
    && OnlyTouches(w, s.w, Ids(databases))
    && |Operations(w.log)| <= |Operations(s.w.log)|
    && Operations(s.w.log)[..|Operations(w.log)|] == Operations(w.log)
    && RecordsOf(Operations(s.w.log)[|Operations(w.log)|..], databases, ip, op, results)
    && s.err == LastError(results)
  }

  lemma CompletedSnoc(w: World, prior: Step, r: Step, s: Step, front: seq<Database>, last: Database,
                      ip: string, op: Op, results: seq<Option<Error>>)
    requires Completed(w, prior, front, ip, op, results)
    requires OnlyTouches(prior.w, r.w, {last.id})
    requires Operations(r.w.log) == Operations(prior.w.log) + [Done(last.id, ip, op, r.err)]
    requires s == Step(r.w, if r.err.Some? then r.err else prior.err)
    ensures Completed(w, s, front + [last], ip, op, results + [r.err])
  {
    hide Operations;
    assert (results + [r.err])[..|results|] == results;
    assert Ids(front + [last]) == Ids(front) + {last.id};
    var n := |Operations(w.log)|;
    assert Operations(s.w.log)[n..] == Operations(prior.w.log)[n..] + [Done(last.id, ip, op, r.err)];
  }

  lemma EffectOnlyTouches(w: World, s: Step, db: string, ip: string, op: Op)
    requires Effect(w, s, db, ip, op)
    ensures OnlyTouches(w, s.w, {db})
  {
    hide Changes, Target, LocalLog;
  }

  lemma NothingCompleted(w: World, ip: string, op: Op)
    ensures Completed(w, Step(w, None), [], ip, op, [])
  {
    hide Operations;
  }

  lemma {:induction false} FanOutCompletes(o: Oracle, cfg: Config, w: World, databases: seq<Database>, ip: string,
                                           op: Op)
    requires cfg.retry.maxAttempts > 0
    ensures exists results: seq<Option<Error>> ::
      Completed(w, FanOut(o, cfg, w, databases, ip, op), databases, ip, op, results)
  {
    hide Completed, UpdateDb, Effect, OnlyTouches, Operations, LastError;
    if databases == [] {
      NothingCompleted(w, ip, op);
      assert Completed(w, FanOut(o, cfg, w, databases, ip, op), databases, ip, op, []);
    } else {
      var front, last := databases[..|databases| - 1], databases[|databases| - 1];
      FanOutCompletes(o, cfg, w, front, ip, op);
      var prior := FanOut(o, cfg, w, front, ip, op);
      var results: seq<Option<Error>> :| Completed(w, prior, front, ip, op, results);
      var r := UpdateDb(o, cfg, prior.w, last.id, ip, op);
      UpdateDbEffect(o, cfg, prior.w, last.id, ip, op);
      EffectOnlyTouches(prior.w, r, last.id, ip, op);
      OneRecord(o, cfg, prior.w, last.id, ip, op);
      CompletedSnoc(w, prior, r, FanOut(o, cfg, w, databases, ip, op), front, last, ip, op, results);
      assert databases == front + [last];
    }
  }

  /** Fan-out completeness. For a configured pool there is one operation on each of its databases, in
      order and whatever the others returned, a removal unless the operation is named "add"; nil comes back
      exactly when all of them returned nil, otherwise the last error; nothing but those databases is
      touched; and the "no databases" error does not occur. */
  lemma UpdateAllowListComplete(o: Oracle, cfg: Config, w: World, pool: string, ip: string, operation: string)
    requires Validated(cfg) && IsConfigured(cfg.nodepools, pool)
    ensures var databases := DatabasesFor(cfg.nodepools, pool);
      var s := UpdateAllowList(o, cfg, w, pool, ip, operation);
      && databases != []
      && exists results: seq<Option<Error>> ::
           && Completed(w, s, databases, ip, if operation == "add" then Add else Remove, results)
           && (s.err.None? <==> forall i | 0 <= i < |results| :: results[i].None?)
  {
    ConfiguredPoolHasDatabases(cfg, pool);
    hide FanOut, DatabasesFor, Validated, Completed;
    var databases := DatabasesFor(cfg.nodepools, pool);
    FanOutCompletes(o, cfg, w, databases, ip, OpOf(operation));
    var s := UpdateAllowList(o, cfg, w, pool, ip, operation);
    var results: seq<Option<Error>> :| Completed(w, s, databases, ip, OpOf(operation), results);
    LastErrorNil(results);
  }

  /** For any other pool nothing is attempted at all, and the error says so. */
  lemma UnknownPoolTouchesNothing(o: Oracle, cfg: Config, w: World, pool: string, ip: string, operation: string)
    requires !IsConfigured(cfg.nodepools, pool)
    ensures UpdateAllowList(o, cfg, w, pool, ip, operation) == Step(w, Some(NoDatabases(pool)))
  {
    FirstPoolWins(cfg.nodepools, pool);
  }

  // ---------- loops that go on after an error ----------

  type Action = (World, string) -> Step

  /** One action per argument, each on the world the one before it left, whatever that one returned; the
      error of the whole is that of the last action that failed, and nil if none did. */
  ghost predicate Chained(act: Action, w: World, args: seq<string>, worlds: seq<World>, results: seq<Option<Error>>,
                          s: Step)
  {
    && |worlds| == |args| + 1 && |results| == |args| && worlds[0] == w
    && (forall i | 0 <= i < |args| :: act(worlds[i], args[i]) == Step(worlds[i + 1], results[i]))
    && s.w == worlds[|args|]
    && (s.err.None? <==> forall i | 0 <= i < |args| :: results[i].None?)
    && (s.err.Some? ==> exists i | 0 <= i < |args| ::
          results[i] == s.err && forall j | i < j < |args| :: results[j].None?)
  }

  ghost predicate RunsAll(act: Action, w: World, args: seq<string>, s: Step) {
    exists worlds: seq<World>, results: seq<Option<Error>> :: Chained(act, w, args, worlds, results, s)
  }

  lemma RunsNone(act: Action, w: World)
    ensures RunsAll(act, w, [], Step(w, None))
  {
    assert Chained(act, w, [], [w], [], Step(w, None));
  }

  lemma RunsOneMore(act: Action, w: World, args: seq<string>, arg: string, prior: Step)
    requires RunsAll(act, w, args, prior)
    ensures var r := act(prior.w, arg);
      RunsAll(act, w, args + [arg], Step(r.w, if r.err.Some? then r.err else prior.err))
  {
    var worlds: seq<World>, results: seq<Option<Error>> :| Chained(act, w, args, worlds, results, prior);
    var r := act(prior.w, arg);
    var s := Step(r.w, if r.err.Some? then r.err else prior.err);
    var worlds', results' := worlds + [r.w], results + [r.err];
    if r.err.Some? {
      assert results'[|args|] == s.err;
    } else if prior.err.Some? {
      var i :| 0 <= i < |args| && results[i] == prior.err && forall j | i < j < |args| :: results[j].None?;
      assert results'[i] == s.err && forall j | i < j < |args| + 1 :: results'[j].None?;
    }
    assert Chained(act, w, args + [arg], worlds', results', s);
  }

  lemma {:induction false} HandleIPsRunsAll(o: Oracle, cfg: Config, w: World, pool: string, ips: seq<string>,
                                            operation: string)
    ensures RunsAll((v, ip) => UpdateAllowList(o, cfg, v, pool, ip, operation), w, ips,
                    HandleIPs(o, cfg, w, pool, ips, operation))
  {
    hide RunsAll, UpdateAllowList;
    var act: Action := (v, ip) => UpdateAllowList(o, cfg, v, pool, ip, operation);
    if ips == [] {
      RunsNone(act, w);
    } else {
      var front, last := ips[..|ips| - 1], ips[|ips| - 1];
      HandleIPsRunsAll(o, cfg, w, pool, front, operation);
      RunsOneMore(act, w, front, last, HandleIPs(o, cfg, w, pool, front, operation));
      assert front + [last] == ips;
    }
  }

  /** handleNodeEvent hands every address, with the pool of the node's label, to UpdateAllowList, whatever the
      earlier ones returned, and reports the last error; without an address it does nothing but say so. */
  lemma EveryAddressHandled(o: Oracle, cfg: Config, w: World, node: Node, ips: seq<string>, operation: string)
    requires cfg.nodepoolLabelKey in node.labels
    ensures ips == [] ==> HandleNodeEvent(o, cfg, w, node, ips, operation) == Step(w, Some(NoAddresses(node.name)))
    ensures ips != [] ==>
      RunsAll((v, ip) => UpdateAllowList(o, cfg, v, node.labels[cfg.nodepoolLabelKey], ip, operation), w, ips,
              HandleNodeEvent(o, cfg, w, node, ips, operation))
  {
    hide HandleIPs, RunsAll, UpdateAllowList;
    if ips != [] {
      HandleIPsRunsAll(o, cfg, w, node.labels[cfg.nodepoolLabelKey], ips, operation);
    }
  }

  /** Initialisation fetches every database, whatever the earlier fetches returned, and reports the last error. */
  lemma {:induction false} EveryDatabaseFetched(o: Oracle, w: World, ids: seq<string>)
    ensures RunsAll((v, id) => Fetch(o, v, id), w, ids, Initialize(o, w, ids))
  {
    hide RunsAll, Fetch;
    var act: Action := (v, id) => Fetch(o, v, id);
    if ids == [] {
      RunsNone(act, w);
    } else {
      var front, last := ids[..|ids| - 1], ids[|ids| - 1];
      EveryDatabaseFetched(o, w, front);
      RunsOneMore(act, w, front, last, Initialize(o, w, front));
      assert front + [last] == ids;
    }
  }

  /** Initialising an empty cache tries every configured database: the remote lists are untouched, what
      gets cached is exact, and nil is returned exactly when every database is then cached. */
  lemma {:induction false} InitializeOutcome(o: Oracle, w: World, ids: seq<string>)
    requires w.cache == map[]
    ensures var s := Initialize(o, w, ids);
      && s.w.remote == w.remote
      && (forall db | db in s.w.cache :: db in ids && db in w.remote && s.w.cache[db] == w.remote[db])
      && (NoDuplicates(ids) ==> (s.err.None? <==> forall db | db in ids :: db in s.w.cache))
  {
    if ids == [] {
    } else {
      var front, last := ids[..|ids| - 1], ids[|ids| - 1];
      InitializeOutcome(o, w, front);
      var prior := Initialize(o, w, front);
      assert forall db :: db in ids <==> db in front || db == last;
      if NoDuplicates(ids) {
        assert last !in front;
        assert Fetch(o, prior.w, last).err.None? <==> last in Fetch(o, prior.w, last).w.cache;
      }
    }
  }

  /** A node that passes the watched filter is always in such a pool. */
  lemma WatchedNodeHasDatabases(cfg: Config, node: Node)
    requires Validated(cfg) && IsWatched(cfg, node)
    ensures DatabasesFor(cfg.nodepools, LabelOf(cfg, node)) != []
  {
    ConfiguredPoolHasDatabases(cfg, LabelOf(cfg, node));
  }
}

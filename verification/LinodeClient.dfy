/** The allow-list client of pkg/linode/client.go: an object that owns the cache and calls the API.
    Every method is proved to take the world exactly where the functions of `AllowList` say. */
module LinodeClient {
  import opened Base
  import opened Config
  import opened Addresses
  import opened Ordering
  import opened AllowList
  import Retry

  /** The remote side together with the limiter and the operation metric. */
  class LinodeApi {
    const oracle: Oracle
    var remote: map<string, seq<string>>
    var log: seq<Call>

    constructor (oracle: Oracle, remote: map<string, seq<string>>)
      ensures this.oracle == oracle && this.remote == remote && log == []
    {
      this.oracle, this.remote, log := oracle, remote, [];
    }

    ghost function State(cache: map<string, seq<string>>): World
      reads this
    {
      World(remote, cache, log)
    }

    method Wait() returns (err: Option<Error>)
      modifies this
      ensures forall cache :: Step(State(cache), err) == AllowList.Wait(oracle, old(State(cache)))
    {
      var ok := oracle.grants(|log|);
      log := log + [Waited(ok)];
      err := if ok then None else Some(RateLimiter);
    }

    method GetDatabaseAllowList(db: string) returns (list: seq<string>, err: Option<Error>)
      modifies this
      ensures forall cache :: Step(State(cache), err) == Get(oracle, old(State(cache)), db)
      ensures err.None? ==> list == remote[db]
    {
      var r := oracle.reply(|log|);
      var ok := r.ok && db in remote;
      log := log + [Got(db, ok)];
      if ok {
        list, err := remote[db], None;
      } else {
        list, err := [], Some(Api(r.code));
      }
    }

    method UpdateDatabaseAllowList(db: string, list: seq<string>) returns (err: Option<Error>)
      modifies this
      ensures forall cache :: Step(State(cache), err) == PutList(oracle, old(State(cache)), db, list)
    {
      var r := oracle.reply(|log|);
      var known := db in remote;
      if known && (r.ok || r.applied) {
        remote := remote[db := list];
      }
      log := log + [Put(db, list, known && r.ok)];
      err := if known && r.ok then None else Some(Api(r.code));
    }

    method Observe(db: string, ip: string, op: Op, err: Option<Error>)
      modifies this
      ensures forall cache :: State(cache) == Record(old(State(cache)), db, ip, op, err)
    {
      log := log + [Done(db, ip, op, err)];
    }
  }

  /** A map iteration visits every key once, in an order of its own. */
  ghost predicate IsIteration(order: seq<string>, keys: set<string>) {
    NoDuplicates(order) && Elements(order) == keys
  }

  class Client {
    const config: Config
    const api: LinodeApi
    var allowListCache: map<string, seq<string>>

    constructor (config: Config, api: LinodeApi)
      ensures this.config == config && this.api == api && allowListCache == map[]
    {
      this.config, this.api, allowListCache := config, api, map[];
    }

    ghost function State(): World
      reads this, api
    {
      api.State(allowListCache)
    }

    method FetchAndCacheAllowList(db: string) returns (err: Option<Error>)
      modifies `allowListCache, api
      ensures Step(State(), err) == Fetch(api.oracle, old(State()), db)
    {
      err := api.Wait();
      if err.Some? {
        return;
      }
      var list;
      list, err := api.GetDatabaseAllowList(db);
      if err.Some? {
        return;
      }
      allowListCache := allowListCache[db := list];
    }

    method GetCachedAllowList(db: string) returns (list: seq<string>, err: Option<Error>)
      modifies `allowListCache, api
      ensures Step(State(), err) == Load(api.oracle, old(State()), db)
      ensures err.None? ==> db in allowListCache && list == allowListCache[db]
    {
      if db in allowListCache {
        return allowListCache[db], None;
      }
      err := FetchAndCacheAllowList(db);
      if err.Some? {
        return [], err;
      }
      list := allowListCache[db];
    }

    method InvalidateCache(db: string)
      modifies `allowListCache
      ensures allowListCache == old(allowListCache) - {db}
    {
      allowListCache := allowListCache - {db};
    }

    method InitializeCache() returns (err: Option<Error>, ghost order: seq<string>)
      modifies `allowListCache, api
      ensures IsIteration(order, AllIds(config.nodepools))
      ensures Step(State(), err) == Initialize(api.oracle, old(State()), order)
    {
      var dbIDs := CollectDatabaseIDs(config.nodepools);
      err, order := None, [];
      var rest := dbIDs.Keys;
      ghost var w0 := State();
      assert NoDuplicates(order) && Elements(order) == {};
      assert Step(w0, None) == Initialize(api.oracle, w0, order);
      hide Fetch, Initialize, NoDuplicates, Elements, AllIds;
      while rest != {}
        invariant rest <= dbIDs.Keys && Elements(order) == dbIDs.Keys - rest
        invariant NoDuplicates(order)
        invariant Step(State(), err) == Initialize(api.oracle, w0, order)
      {
        var db :| db in rest;
        rest := rest - {db};
        AppendFresh(order, db);
        InitializeSnoc(api.oracle, w0, order, db);
        order := order + [db];
        var fetchErr := FetchAndCacheAllowList(db);
        if fetchErr.Some? {
          err := fetchErr;
        }
      }
    }

    /** The closure of updateDatabaseAllowList, on a map used as a set. */
    method EditAllowList(db: string, ip: string, op: Op) returns (err: Option<Error>)
      modifies `allowListCache, api
      ensures Step(State(), err) == Attempt(api.oracle, old(State()), db, ip, op)
    {
      var allowList;
      allowList, err := GetCachedAllowList(db);
      if err.Some? {
        return;
      }
      var ipSet := CollectNormalised(allowList);
      var x := NormalizeIP(ip);
      var modified := false;
      if op == Add {
        if x !in ipSet {
          ipSet := ipSet[x := true];
          modified := true;
        }
      } else {
        if x in ipSet {
          ipSet := ipSet - {x};
          modified := true;
        }
      }
      if !modified {
        return;
      }
      assert ipSet.Keys == Edit(NormSet(allowList), {x}, op);
      var newAllowList := SortedKeys(ipSet);
      err := api.UpdateDatabaseAllowList(db, newAllowList);
      if err.None? {
        InvalidateCache(db);
      }
    }

    /** The retry loop around the closure. */
    method RetryEdit(db: string, ip: string, op: Op) returns (err: Option<Error>)
      modifies `allowListCache, api
      ensures var r := RetryUpdate(api.oracle, config, old(State()), db, ip, op, api.oracle.pauses(|old(api.log)|));
        State() == r.state && err == r.err
    {
      hide Attempt, Retry.NextBackoff;
      ghost var fn := AttemptFn(api.oracle, db, ip, op);
      var pause := api.oracle.pauses(|api.log|);
      ghost var all := Retry.RetryFrom(config.retry, fn, Retry.DefaultPolicy(), pause, 0, State(), None);
      err := None;
      var attempt := 0;
      while attempt < config.retry.maxAttempts
        invariant 0 <= attempt
        invariant var rest := Retry.RetryFrom(config.retry, fn, Retry.DefaultPolicy(), pause, attempt, State(), err);
          all.state == rest.state && all.err == rest.err
      {
        err := EditAllowList(db, ip, op);
        if err.None? || !Retry.DefaultIsRetryable(err.value) {
          return;
        }
        if pause(attempt).cancelledBefore || pause(attempt).cancelledDuring {
          return Some(Cancelled);
        }
        attempt := attempt + 1;
      }
    }

    method UpdateDatabaseAllowList(db: string, ip: string, op: Op) returns (err: Option<Error>)
      modifies `allowListCache, api
      ensures Step(State(), err) == UpdateDb(api.oracle, config, old(State()), db, ip, op)
    {
      hide RetryUpdate;
      err := api.Wait();
      if err.None? {
        err := RetryEdit(db, ip, op);
      }
      api.Observe(db, ip, op, err);
    }

    /** handleAddOperation and handleDeleteOperation: every database, whatever fails. */
    method HandleOperation(databases: seq<Database>, ip: string, op: Op) returns (lastErr: Option<Error>)
      modifies `allowListCache, api
      ensures Step(State(), lastErr) == FanOut(api.oracle, config, old(State()), databases, ip, op)
    {
      lastErr := None;
      for i := 0 to |databases|
        invariant Step(State(), lastErr) == FanOut(api.oracle, config, old(State()), databases[..i], ip, op)
      {
        assert databases[..i + 1][..i] == databases[..i];
        var err := UpdateDatabaseAllowList(databases[i].id, ip, op);
        if err.Some? {
          lastErr := err;
        }
      }
      assert databases[..|databases|] == databases;
    }

    method UpdateAllowList(pool: string, ip: string, operation: string) returns (err: Option<Error>)
      modifies `allowListCache, api
      ensures Step(State(), err) == AllowList.UpdateAllowList(api.oracle, config, old(State()), pool, ip, operation)
    {
      var databases: seq<Database> := [];
      var i := 0;
      while i < |config.nodepools|
        invariant 0 <= i <= |config.nodepools|
        invariant databases == []
        invariant DatabasesFor(config.nodepools, pool) == DatabasesFor(config.nodepools[i..], pool)
      {
        if config.nodepools[i].name == pool {
          databases := config.nodepools[i].databases;
          break;
        }
        i := i + 1;
      }
      assert databases == DatabasesFor(config.nodepools, pool);
      if databases == [] {
        return Some(NoDatabases(pool));
      }
      if operation == "add" {
        err := HandleOperation(databases, ip, Add);
      } else {
        err := HandleOperation(databases, ip, Remove);
      }
    }
  }

  /** The configured databases by id, so that a shared one appears once. */
  method CollectDatabaseIDs(pools: seq<Nodepool>) returns (dbIDs: map<string, string>)
    ensures dbIDs.Keys == AllIds(pools)
  {
    dbIDs := map[];
    for i := 0 to |pools|
      invariant dbIDs.Keys + AllIds(pools[i..]) == AllIds(pools)
    {
      ghost var rest := AllIds(pools[i + 1..]);
      assert AllIds(pools[i..]) == Ids(pools[i].databases) + rest;
      dbIDs := AddDatabases(dbIDs, pools[i].databases);
    }
  }

  method AddDatabases(known: map<string, string>, databases: seq<Database>) returns (dbIDs: map<string, string>)
    ensures dbIDs.Keys == known.Keys + Ids(databases)
  {
    dbIDs := known;
    for j := 0 to |databases|
      invariant dbIDs.Keys == known.Keys + Ids(databases[..j])
    {
      assert databases[..j + 1] == databases[..j] + [databases[j]];
      dbIDs := dbIDs[databases[j].id := databases[j].name];
    }
    assert databases[..|databases|] == databases;
  }

  /** The map that the closure fills from the current list. */
  method CollectNormalised(list: seq<string>) returns (ipSet: map<string, bool>)
    ensures ipSet.Keys == NormSet(list)
  {
    ipSet := map[];
    for i := 0 to |list|
      invariant ipSet.Keys == NormSet(list[..i])
    {
      NormSetStep(list, i);
      ipSet := ipSet[NormalizeIP(list[i]) := true];
    }
    assert list[..|list|] == list;
  }

  /** The keys of the map, appended in iteration order and then sorted. */
  method SortedKeys(ipSet: map<string, bool>) returns (list: seq<string>)
    ensures list == SortedList(ipSet.Keys)
  {
    list := [];
    var rest := ipSet.Keys;
    while rest != {}
      invariant rest <= ipSet.Keys && Elements(list) == ipSet.Keys - rest
      invariant NoDuplicates(list)
    {
      var entry :| entry in rest;
      rest := rest - {entry};
      AppendFresh(list, entry);
      list := list + [entry];
    }
    EnumerationOrderIsIrrelevant(list, ipSet.Keys);
    list := SortStrings(list);
  }
}

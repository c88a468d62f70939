/** What one call of the allow-list client does, as functions on the state of the world.

    The world is the remote lists, the client's cache and a log of everything that happened at the
    boundary: limiter waits, GETs, PUTs and the completion record of each database operation. The
    environment is an `Oracle`: it decides every reply, so a statement for all oracles covers every
    pattern of failures, including a PUT that takes effect and still reports an error. */
module AllowList {
  import opened Base
  import opened Config
  import opened Addresses
  import opened Ordering
  import Retry

  datatype Op = Add | Remove

  datatype Call =
    | Waited(ok: bool)
    | Got(db: string, ok: bool)
    | Put(db: string, list: seq<string>, ok: bool)
    | Done(db: string, ip: string, op: Op, err: Option<Error>)

  datatype Reply = Reply(ok: bool, applied: bool, code: int)

  /** `grants(n)` and `reply(n)` are what the limiter or the API says to the call that becomes entry n of
      the log; `pauses(n)` is the environment of the retry loop that starts when the log has n entries. */
  datatype Oracle = Oracle(grants: nat -> bool, reply: nat -> Reply, pauses: nat -> (nat -> Retry.Pause))

  datatype World = World(remote: map<string, seq<string>>, cache: map<string, seq<string>>, log: seq<Call>)

  datatype Step = Step(w: World, err: Option<Error>)

  /** The set edit that an operation asks for. */
  ghost function Edit(s: set<string>, x: set<string>, op: Op): set<string> {
    if op == Add then s + x else s - x
  }

  // ---------- the API boundary ----------

  function Wait(o: Oracle, w: World): Step {
    var ok := o.grants(|w.log|);
    Step(w.(log := w.log + [Waited(ok)]), if ok then None else Some(RateLimiter))
  }

  function Get(o: Oracle, w: World, db: string): (s: Step)
    ensures s.err.None? ==> db in s.w.remote
  {
    var r := o.reply(|w.log|);
    var ok := r.ok && db in w.remote;
    Step(w.(log := w.log + [Got(db, ok)]), if ok then None else Some(Api(r.code)))
  }

  /** A PUT takes effect when it succeeds, and may take effect when it does not. */
  function PutList(o: Oracle, w: World, db: string, list: seq<string>): Step {
    var r := o.reply(|w.log|);
    var known := db in w.remote;
    var ok := known && r.ok;
    var remote := if known && (r.ok || r.applied) then w.remote[db := list] else w.remote;
    Step(World(remote, w.cache, w.log + [Put(db, list, ok)]), if ok then None else Some(Api(r.code)))
  }

  // ---------- the cache ----------

  function Fetch(o: Oracle, w: World, db: string): (s: Step)
    ensures s.err.None? ==> db in s.w.cache
  {
    var a := Wait(o, w);
    if a.err.Some? then a
    else
      var g := Get(o, a.w, db);
      if g.err.Some? then g
      else Step(g.w.(cache := g.w.cache[db := g.w.remote[db]]), None)
  }

  function Load(o: Oracle, w: World, db: string): (s: Step)
    ensures s.err.None? ==> db in s.w.cache
  {
    if db in w.cache then Step(w, None) else Fetch(o, w, db)
  }

  /** InitializeCache over the configured databases, in the order the map iteration yields them. */
  function Initialize(o: Oracle, w: World, ids: seq<string>): Step {
    if ids == [] then Step(w, None)
    else
      var prior := Initialize(o, w, ids[..|ids| - 1]);
      var f := Fetch(o, prior.w, ids[|ids| - 1]);
      Step(f.w, if f.err.Some? then f.err else prior.err)
  }

  lemma InitializeSnoc(o: Oracle, w: World, ids: seq<string>, id: string)
    ensures var prior := Initialize(o, w, ids);
      var f := Fetch(o, prior.w, id);
      Initialize(o, w, ids + [id]) == Step(f.w, if f.err.Some? then f.err else prior.err)
  {
    hide Fetch;
    assert (ids + [id])[..|ids|] == ids;
  }

  // ---------- one operation on one database ----------

  /** The list an edit of the set `entries` writes. */
  ghost function Edited(entries: seq<string>, ip: string, op: Op): seq<string> {
    SortedList(Edit(NormSet(entries), {NormalizeIP(ip)}, op))
  }

  /** Whether an edit would change the set of `entries` at all. */
  ghost predicate Modifies(entries: seq<string>, ip: string, op: Op) {
    (NormalizeIP(ip) in NormSet(entries)) != (op == Add)
  }

  /** Writing a list and, on success, dropping the cache entry. */
  function WriteBack(o: Oracle, w: World, db: string, list: seq<string>): Step {
    var p := PutList(o, w, db, list);
    if p.err.Some? then p else Step(p.w.(cache := p.w.cache - {db}), None)
  }

  /** One pass of the closure that updateDatabaseAllowList retries. */
  ghost function Attempt(o: Oracle, w: World, db: string, ip: string, op: Op): Step {
    var a := Load(o, w, db);
    if a.err.Some? then a
    else if !Modifies(a.w.cache[db], ip, op) then a
    else WriteBack(o, a.w, db, Edited(a.w.cache[db], ip, op))
  }

  ghost function AttemptFn(o: Oracle, db: string, ip: string, op: Op): World -> (World, Option<Error>) {
    w => var a := Attempt(o, w, db, ip, op); (a.w, a.err)
  }

  ghost function RetryUpdate(o: Oracle, cfg: Config, w: World, db: string, ip: string, op: Op,
                             env: nat -> Retry.Pause): Retry.Outcome<World> {
    Retry.RetryFrom(cfg.retry, AttemptFn(o, db, ip, op), Retry.DefaultPolicy(), env, 0, w, None)
  }

  function Record(w: World, db: string, ip: string, op: Op, err: Option<Error>): World {
    w.(log := w.log + [Done(db, ip, op, err)])
  }

  /** updateDatabaseAllowList: limiter, retry loop, and the deferred record of the operation. */
  ghost function UpdateDb(o: Oracle, cfg: Config, w: World, db: string, ip: string, op: Op): Step {
    var a := Wait(o, w);
    if a.err.Some? then Step(Record(a.w, db, ip, op, a.err), a.err)
    else
      var r := RetryUpdate(o, cfg, a.w, db, ip, op, o.pauses(|a.w.log|));
      Step(Record(r.state, db, ip, op, r.err), r.err)
  }

  // ---------- fan-out ----------

  /** The operation on each database in turn; the last error wins. */
  ghost function FanOut(o: Oracle, cfg: Config, w: World, databases: seq<Database>, ip: string, op: Op): Step {
    if databases == [] then Step(w, None)
    else
      var prior := FanOut(o, cfg, w, databases[..|databases| - 1], ip, op);
      var r := UpdateDb(o, cfg, prior.w, databases[|databases| - 1].id, ip, op);
      Step(r.w, if r.err.Some? then r.err else prior.err)
  }

  /** UpdateAllowList treats every operation name but "add" as a removal. */
  function OpOf(operation: string): Op {
    if operation == "add" then Add else Remove
  }

  ghost function UpdateAllowList(o: Oracle, cfg: Config, w: World, pool: string, ip: string, operation: string): Step {
    var databases := DatabasesFor(cfg.nodepools, pool);
    if databases == [] then Step(w, Some(NoDatabases(pool)))
    else FanOut(o, cfg, w, databases, ip, OpOf(operation))
  }

  // ---------- reading the log ----------

  /** The normalised IPs that had an operation on `db` return an error. */
  ghost function Failed(log: seq<Call>, db: string): set<string> {
    set i | 0 <= i < |log| && log[i].Done? && log[i].db == db && log[i].err.Some? :: NormalizeIP(log[i].ip)
  }

  /** The completed operations, in order. */
  function Operations(log: seq<Call>): seq<Call> {
    if log == [] then []
    else
      var last := log[|log| - 1];
      Operations(log[..|log| - 1]) + (if last.Done? then [last] else [])
  }

  function Gets(log: seq<Call>, db: string): nat {
    if log == [] then 0
    else
      var last := log[|log| - 1];
      Gets(log[..|log| - 1], db) + (if last == Got(db, true) then 1 else 0)
  }

  function Puts(log: seq<Call>, db: string): nat {
    if log == [] then 0
    else
      var last := log[|log| - 1];
      Puts(log[..|log| - 1], db) + (if last.Put? && last.db == db && last.ok then 1 else 0)
  }
}

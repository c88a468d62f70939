/** Error containment: the remote lists and the cache follow the requested edits on every IP that
    never had an operation on that database fail. */
module Agreement {
  import opened Base
  import opened Config
  import opened Addresses
  import opened Ordering
  import opened AllowList
  import opened NodeWatch
  import opened UpdateProofs
  import Retry

  ghost predicate AgreeOff(a: set<string>, b: set<string>, except: set<string>) {
    a - except == b - except
  }

  /** A list, compared as a set of normalised entries, differs from `wanted` only on `except`. */
  ghost predicate ListAgrees(list: seq<string>, wanted: set<string>, except: set<string>) {
    AgreeOff(NormSet(list), wanted, except)
  }

  /** The remote list of each database, and its cached list if there is one, are the wanted set
      except on the IPs that had an operation on that database return an error. */
  ghost predicate Agrees(w: World, want: map<string, set<string>>) {
    && want.Keys == w.remote.Keys
    && w.cache.Keys <= w.remote.Keys
    && (forall db | db in want :: ListAgrees(w.remote[db], want[db], Failed(w.log, db)))
    && (forall db | db in w.cache :: ListAgrees(w.cache[db], want[db], Failed(w.log, db)))
  }

  /** The wanted sets after an edit of some databases. */
  ghost function Apply(want: map<string, set<string>>, dbs: set<string>, x: set<string>,
                       op: Op): map<string, set<string>>
  {
    map db | db in want :: if db in dbs then Edit(want[db], x, op) else want[db]
  }

  lemma ApplyNothing(want: map<string, set<string>>, dbs: set<string>, op: Op)
    ensures Apply(want, dbs, {}, op) == want
    ensures forall x :: Apply(want, {}, x, op) == want
  {
    assert forall s: set<string> :: s + {} == s && s - {} == s;
  }

  /** The same edit on two groups of databases, overlapping or not. */
  lemma ApplyUnionOfDatabases(want: map<string, set<string>>, a: set<string>, b: set<string>, x: set<string>, op: Op)
    ensures Apply(Apply(want, a, x, op), b, x, op) == Apply(want, a + b, x, op)
  {
    assert forall s: set<string> :: s + x + x == s + x && s - x - x == s - x;
  }

  lemma ApplyUnionOfEntries(want: map<string, set<string>>, dbs: set<string>, x: set<string>, y: set<string>, op: Op)
    ensures Apply(Apply(want, dbs, x, op), dbs, y, op) == Apply(want, dbs, x + y, op)
  {
    assert forall s: set<string> :: s + x + y == s + (x + y) && s - x - y == s - (x + y);
  }

  // ---------- one operation ----------

  lemma FailedAppend(log: seq<Call>, c: Call, db: string)
    ensures Failed(log + [c], db) ==
      Failed(log, db) + (if c.Done? && c.db == db && c.err.Some? then {NormalizeIP(c.ip)} else {})
  {
    var more := log + [c];
    var added := if c.Done? && c.db == db && c.err.Some? then {NormalizeIP(c.ip)} else {};
    forall e | e in Failed(log, db) + added ensures e in Failed(more, db) {
      if e in Failed(log, db) {
        var i :| 0 <= i < |log| && log[i].Done? && log[i].db == db && log[i].err.Some? && NormalizeIP(log[i].ip) == e;
        assert more[i] == log[i];
      } else {
        assert more[|log|] == c;
      }
    }
  }

  lemma {:induction false} FailedLocal(log0: seq<Call>, log: seq<Call>, db: string, target: seq<string>, d: string)
    requires log0 <= log && forall i | |log0| <= i < |log| :: Local(log[i], db, target)
    ensures Failed(log, d) == Failed(log0, d)
  {
    if log == log0 {
    } else {
      var front := log[..|log| - 1];
      FailedLocal(log0, front, db, target, d);
      FailedAppend(front, log[|log| - 1], d);
      assert log == front + [log[|log| - 1]];
    }
  }

  lemma FailedAfter(w: World, s: Step, db: string, ip: string, op: Op, d: string)
    requires Effect(w, s, db, ip, op)
    ensures Failed(s.w.log, d) == Failed(w.log, d) + (if d == db && s.err.Some? then {NormalizeIP(ip)} else {})
  {
    hide Failed;
    var front := s.w.log[..|s.w.log| - 1];
    FailedLocal(w.log, front, db, Target(w, db, ip, op), d);
    FailedAppend(front, Done(db, ip, op, s.err), d);
    assert s.w.log == front + [Done(db, ip, op, s.err)];
  }

  lemma EditedSet(list: seq<string>, ip: string, op: Op)
    ensures NormSet(Edited(list, ip, op)) == Edit(NormSet(list), {NormalizeIP(ip)}, op)
  {
    NormSetOfSortedList(Edit(NormSet(list), {NormalizeIP(ip)}, op));
  }

  /** The written list takes agreement across the edit. */
  lemma EditedAgrees(list: seq<string>, wanted: set<string>, except: set<string>, ip: string, op: Op)
    requires ListAgrees(list, wanted, except)
    ensures ListAgrees(Edited(list, ip, op), Edit(wanted, {NormalizeIP(ip)}, op), except)
  {
    hide NormSet, Edited;
    EditedSet(list, ip, op);
    var x := {NormalizeIP(ip)};
    assert forall s: set<string> :: s + x - except == (s - except) + (x - except) && s - x - except == s - except - x;
  }

  /** Where nothing was to change for the basis, the edit changes the wanted set only on excepted IPs. */
  lemma UnmodifiedAgrees(basis: seq<string>, list: seq<string>, wanted: set<string>, except: set<string>, ip: string,
                         op: Op)
    requires ListAgrees(basis, wanted, except) && ListAgrees(list, wanted, except) && !Modifies(basis, ip, op)
    ensures ListAgrees(list, Edit(wanted, {NormalizeIP(ip)}, op), except)
  {
    hide NormSet;
    var x := NormalizeIP(ip);
    if x in except {
      assert Edit(wanted, {x}, op) - except == wanted - except;
    } else {
      assert x in NormSet(basis) - except <==> op == Add;
      assert x in wanted - except <==> op == Add;
      assert Edit(wanted, {x}, op) == wanted;
    }
  }

  /** An edit moves the wanted set only on the edited IP. */
  lemma FailureContained(list: seq<string>, wanted: set<string>, except: set<string>, ip: string, op: Op)
    requires ListAgrees(list, wanted, except) || ListAgrees(list, Edit(wanted, {NormalizeIP(ip)}, op), except)
    ensures ListAgrees(list, Edit(wanted, {NormalizeIP(ip)}, op), except + {NormalizeIP(ip)})
  {
    hide NormSet;
    var x := {NormalizeIP(ip)};
    var s := NormSet(list);
    assert s - (except + x) == (s - except) - x;
    assert Edit(wanted, x, op) - (except + x) == (Edit(wanted, x, op) - except) - x;
    assert wanted - (except + x) == (wanted - except) - x;
    assert Edit(wanted, x, op) - (except + x) == wanted - (except + x);
  }

  /** What the operation leaves for its own database. */
  lemma OwnDatabase(w: World, s: Step, wanted: set<string>, db: string, ip: string, op: Op)
    requires Effect(w, s, db, ip, op) && db in w.remote
    requires ListAgrees(w.remote[db], wanted, Failed(w.log, db))
    requires db in w.cache ==> ListAgrees(w.cache[db], wanted, Failed(w.log, db))
    ensures var wanted' := Edit(wanted, {NormalizeIP(ip)}, op);
      && db in s.w.remote
      && ListAgrees(s.w.remote[db], wanted', Failed(s.w.log, db))
      && (db in s.w.cache ==> ListAgrees(s.w.cache[db], wanted', Failed(s.w.log, db)))
  {
    hide ListAgrees, Failed, Edited, Modifies, Edit, LocalLog;
    FailedAfter(w, s, db, ip, op, db);
    var basis, except := Basis(w, db), Failed(w.log, db);
    EditedAgrees(basis, wanted, except, ip, op);
    if s.err.Some? {
      FailureContained(w.remote[db], wanted, except, ip, op);
      FailureContained(Target(w, db, ip, op), wanted, except, ip, op);
      FailureContained(basis, wanted, except, ip, op);
    } else {
      assert except + {} == except;
      if !Changes(w, db, ip, op) {
        UnmodifiedAgrees(basis, basis, wanted, except, ip, op);
        UnmodifiedAgrees(basis, w.remote[db], wanted, except, ip, op);
      }
    }
  }

  lemma OtherDatabase(w: World, s: Step, wanted: set<string>, db: string, ip: string, op: Op, d: string)
    requires Effect(w, s, db, ip, op) && d != db && d in w.remote
    requires ListAgrees(w.remote[d], wanted, Failed(w.log, d))
    requires d in w.cache ==> ListAgrees(w.cache[d], wanted, Failed(w.log, d))
    ensures d in s.w.remote && ListAgrees(s.w.remote[d], wanted, Failed(s.w.log, d))
    ensures d in s.w.cache ==> ListAgrees(s.w.cache[d], wanted, Failed(s.w.log, d))
  {
    hide ListAgrees, Failed, Edited, Modifies, LocalLog;
    FailedAfter(w, s, db, ip, op, d);
    assert Failed(w.log, d) + {} == Failed(w.log, d);
  }

  lemma KeysAfter(w: World, s: Step, db: string, ip: string, op: Op)
    requires Effect(w, s, db, ip, op) && w.cache.Keys <= w.remote.Keys
    ensures s.w.remote.Keys == w.remote.Keys && s.w.cache.Keys <= s.w.remote.Keys
  {
    hide Edited, Modifies, LocalLog;
  }

  lemma {:induction false} EffectAgrees(w: World, s: Step, want: map<string, set<string>>, db: string, ip: string,
                                        op: Op)
    requires Effect(w, s, db, ip, op) && Agrees(w, want)
    ensures Agrees(s.w, Apply(want, {db}, {NormalizeIP(ip)}, op))
  {
    hide ListAgrees, Failed, Effect, Edit;
    KeysAfter(w, s, db, ip, op);
    forall d | d in want
      ensures ListAgrees(s.w.remote[d], Apply(want, {db}, {NormalizeIP(ip)}, op)[d], Failed(s.w.log, d))
      ensures d in s.w.cache
        ==> ListAgrees(s.w.cache[d], Apply(want, {db}, {NormalizeIP(ip)}, op)[d], Failed(s.w.log, d))
    {
      if d == db {
        OwnDatabase(w, s, want[d], db, ip, op);
      } else {
        OtherDatabase(w, s, want[d], db, ip, op, d);
      }
    }
  }

  /** Cached and remote lists differ at most on the IPs that had failed in `log`, and on `ip` for `db`. */
  ghost predicate DivergesOnly(v: World, log: seq<Call>, db: string, ip: string) {
    forall d | d in v.cache ::
      && d in v.remote
      && AgreeOff(NormSet(v.cache[d]), NormSet(v.remote[d]),
                  Failed(log, d) + (if d == db then {NormalizeIP(ip)} else {}))
  }

  /** Between the failed attempts of one call: cache and remote list of its database differ at most on
      IPs that had failed before and on the IP of the call, those of other databases as before. */
  lemma MidCallDivergence(o: Oracle, w: World, want: map<string, set<string>>, db: string, ip: string, op: Op,
                          fn: World -> (World, Option<Error>), n: nat)
    requires Agrees(w, want)
    requires fn == AttemptFn(o, db, ip, op) && forall i: nat | i < n :: fn(Retry.Iterate(fn, w, i)).1.Some?
    ensures DivergesOnly(Retry.Iterate(fn, w, n), w.log, db, ip)
  {
    hide Attempt, Pending, AttemptFn, DivergesOnly;
    AttemptsPending(o, w, db, ip, op, n);
    PendingDivergence(w, Retry.Iterate(fn, w, n), want, db, ip, op);
  }

  lemma PendingDivergence(w: World, v: World, want: map<string, set<string>>, db: string, ip: string, op: Op)
    requires Agrees(w, want) && Pending(w, v, db, ip, op)
    ensures DivergesOnly(v, w.log, db, ip)
  {
    hide NormSet, Failed, Edited, Modifies, LocalLog;
    forall d | d in v.cache
      ensures d in v.remote
      ensures AgreeOff(NormSet(v.cache[d]), NormSet(v.remote[d]),
                       Failed(w.log, d) + (if d == db then {NormalizeIP(ip)} else {}))
    {
      var x, except := if d == db then {NormalizeIP(ip)} else {}, Failed(w.log, d);
      EditedSet(Basis(w, d), ip, op);
      assert forall s: set<string> :: s - (except + x) == s - except - x && s + x - (except + x) == s - except - x;
      assert forall s: set<string> :: s - x - (except + x) == s - except - x;
    }
  }

  // ---------- what the edits ask for ----------

  /** The normalised selected IPs of a node. */
  ghost function NodeEntries(cfg: Config, node: Node): set<string> {
    set ip | ip in Selected(cfg, node) :: NormalizeIP(ip)
  }

  ghost function NodeDatabases(cfg: Config, node: Node): set<string> {
    Ids(DatabasesFor(cfg.nodepools, LabelOf(cfg, node)))
  }

  lemma OrderEntries(cfg: Config, node: Node, ips: seq<string>)
    requires IsOrder(cfg, node, ips)
    ensures NormSet(ips) == NodeEntries(cfg, node)
  {
    hide Selected;
    assert forall ip :: ip in ips <==> ip in Elements(ips);
  }

  /** Whether a callback removes the IPs of its old node, and whether it adds those of its new one. */
  predicate Removes(cfg: Config, ev: Event) {
    match ev
    case Added(_, _) => false
    case Deleted(node, _) => IsWatched(cfg, node)
    case Updated(before, after, _, _) =>
      IsWatched(cfg, before) && (!IsWatched(cfg, after) || LabelOf(cfg, before) != LabelOf(cfg, after))
  }

  predicate Adds(cfg: Config, ev: Event) {
    match ev
    case Added(node, _) => IsWatched(cfg, node)
    case Deleted(_, _) => false
    case Updated(before, after, _, _) =>
      IsWatched(cfg, after) && (!IsWatched(cfg, before) || LabelOf(cfg, before) != LabelOf(cfg, after))
  }

  function OldNode(ev: Event): Option<Node> {
    match ev
    case Added(_, _) => None
    case Deleted(node, _) => Some(node)
    case Updated(before, _, _, _) => Some(before)
  }

  function NewNode(ev: Event): Option<Node> {
    match ev
    case Added(node, _) => Some(node)
    case Deleted(_, _) => None
    case Updated(_, after, _, _) => Some(after)
  }

  ghost function ApplyNode(cfg: Config, want: map<string, set<string>>, node: Node, op: Op): map<string, set<string>> {
    Apply(want, NodeDatabases(cfg, node), NodeEntries(cfg, node), op)
  }

  /** The wanted sets after a callback: old IPs out first, new IPs in second. */
  ghost function ApplyEvent(cfg: Config, want: map<string, set<string>>, ev: Event): map<string, set<string>> {
    var removed := if Removes(cfg, ev) then ApplyNode(cfg, want, OldNode(ev).value, Remove) else want;
    if Adds(cfg, ev) then ApplyNode(cfg, removed, NewNode(ev).value, Add) else removed
  }

  ghost function ApplyEvents(cfg: Config, want: map<string, set<string>>,
                             events: seq<Event>): map<string, set<string>>
  {
    if events == [] then want
    else ApplyEvent(cfg, ApplyEvents(cfg, want, events[..|events| - 1]), events[|events| - 1])
  }

  // ---------- from one operation to runs ----------

  /** A relation between worlds and wanted sets that every operation carries to the edited wanted sets. */
  ghost predicate Tracks(o: Oracle, cfg: Config, A: (World, map<string, set<string>>) -> bool) {
    forall w, want, db, ip, op :: A(w, want)
      ==> A(UpdateDb(o, cfg, w, db, ip, op).w, Apply(want, {db}, {NormalizeIP(ip)}, op))
  }

  lemma UpdateDbTracks(o: Oracle, cfg: Config, A: (World, map<string, set<string>>) -> bool,
                       w: World, want: map<string, set<string>>, db: string, ip: string, op: Op)
    requires Tracks(o, cfg, A) && A(w, want)
    ensures A(UpdateDb(o, cfg, w, db, ip, op).w, Apply(want, {db}, {NormalizeIP(ip)}, op))
  {
    hide UpdateDb, Apply;
  }

  lemma {:induction false} FanOutTracks(o: Oracle, cfg: Config, A: (World, map<string, set<string>>) -> bool,
                                        w: World, want: map<string, set<string>>,
                                        databases: seq<Database>, ip: string, op: Op)
    requires Tracks(o, cfg, A) && A(w, want)
    ensures A(FanOut(o, cfg, w, databases, ip, op).w, Apply(want, Ids(databases), {NormalizeIP(ip)}, op))
  {
    hide Tracks, UpdateDb, Apply;
    var x := {NormalizeIP(ip)};
    ApplyNothing(want, Ids(databases), op);
    if databases == [] {
      assert Ids(databases) == {};
    } else {
      var front, last := databases[..|databases| - 1], databases[|databases| - 1];
      FanOutTracks(o, cfg, A, w, want, front, ip, op);
      var prior := FanOut(o, cfg, w, front, ip, op);
      UpdateDbTracks(o, cfg, A, prior.w, Apply(want, Ids(front), x, op), last.id, ip, op);
      assert databases == front + [last];
      assert Ids(databases) == Ids(front) + {last.id};
      ApplyUnionOfDatabases(want, Ids(front), {last.id}, x, op);
    }
  }

  lemma {:induction false} HandleIPsTracks(o: Oracle, cfg: Config, A: (World, map<string, set<string>>) -> bool,
                                           w: World, want: map<string, set<string>>,
                                           pool: string, ips: seq<string>, operation: string)
    requires Tracks(o, cfg, A) && A(w, want)
    ensures A(HandleIPs(o, cfg, w, pool, ips, operation).w,
              Apply(want, Ids(DatabasesFor(cfg.nodepools, pool)), NormSet(ips), OpOf(operation)))
  {
    hide Tracks, FanOut, OpOf, Apply;
    var databases, op := DatabasesFor(cfg.nodepools, pool), OpOf(operation);
    if ips == [] {
      assert NormSet(ips) == {};
      ApplyNothing(want, Ids(databases), op);
    } else {
      var front, last := ips[..|ips| - 1], ips[|ips| - 1];
      HandleIPsTracks(o, cfg, A, w, want, pool, front, operation);
      var prior := HandleIPs(o, cfg, w, pool, front, operation);
      var mid := Apply(want, Ids(databases), NormSet(front), op);
      FanOutTracks(o, cfg, A, prior.w, mid, databases, last, op);
      NormSetStep(ips, |ips| - 1);
      assert ips[..|ips|] == ips;
      ApplyUnionOfEntries(want, Ids(databases), NormSet(front), {NormalizeIP(last)}, op);
      if databases == [] {
        assert Ids(databases) == {};
        ApplyNothing(mid, {}, op);
      }
    }
  }

  lemma NodeEventTracks(o: Oracle, cfg: Config, A: (World, map<string, set<string>>) -> bool,
                        w: World, want: map<string, set<string>>, node: Node, ips: seq<string>, operation: string)
    requires Tracks(o, cfg, A) && A(w, want) && IsOrder(cfg, node, ips)
    ensures A(HandleNodeEvent(o, cfg, w, node, ips, operation).w, ApplyNode(cfg, want, node, OpOf(operation)))
  {
    hide Tracks, IsOrder, OpOf;
    OrderEntries(cfg, node, ips);
    HandleIPsTracks(o, cfg, A, w, want, LabelOf(cfg, node), ips, operation);
  }

  lemma CallbackTracks(o: Oracle, cfg: Config, A: (World, map<string, set<string>>) -> bool,
                       w: World, want: map<string, set<string>>, ev: Event)
    requires Tracks(o, cfg, A) && A(w, want) && OrdersFit(cfg, ev)
    ensures A(Callback(o, cfg, w, ev), ApplyEvent(cfg, want, ev))
  {
    hide Tracks, IsOrder, HandleNodeEvent, Apply, IsWatched;
    assert OpOf("add") == Add && OpOf("delete") == Remove;
    match ev
    case Added(node, ips) =>
      NodeEventTracks(o, cfg, A, w, want, node, ips, "add");
    case Deleted(node, ips) =>
      NodeEventTracks(o, cfg, A, w, want, node, ips, "delete");
    case Updated(before, after, beforeIPs, afterIPs) =>
      NodeEventTracks(o, cfg, A, w, want, after, afterIPs, "add");
      NodeEventTracks(o, cfg, A, w, want, before, beforeIPs, "delete");
      NodeEventTracks(o, cfg, A, HandleNodeEvent(o, cfg, w, before, beforeIPs, "delete").w,
                      ApplyNode(cfg, want, before, Remove), after, afterIPs, "add");
  }

  lemma {:induction false} RunTracks(o: Oracle, cfg: Config, A: (World, map<string, set<string>>) -> bool,
                                     w: World, want: map<string, set<string>>, events: seq<Event>)
    requires Tracks(o, cfg, A) && A(w, want)
    requires forall i | 0 <= i < |events| :: OrdersFit(cfg, events[i])
    ensures A(Run(o, cfg, w, events), ApplyEvents(cfg, want, events))
  {
    hide Tracks, Callback, ApplyEvent, OrdersFit;
    if events == [] {
    } else {
      var front := events[..|events| - 1];
      RunTracks(o, cfg, A, w, want, front);
      CallbackTracks(o, cfg, A, Run(o, cfg, w, front), ApplyEvents(cfg, want, front), events[|events| - 1]);
    }
  }

  // ---------- agreement over fan-outs, callbacks and runs ----------

  lemma AgreesTracks(o: Oracle, cfg: Config)
    requires cfg.retry.maxAttempts > 0
    ensures Tracks(o, cfg, Agrees)
  {
    hide Agrees, UpdateDb, Effect, Apply;
    forall w, want, db, ip, op | Agrees(w, want)
      ensures Agrees(UpdateDb(o, cfg, w, db, ip, op).w, Apply(want, {db}, {NormalizeIP(ip)}, op))
    {
      UpdateDbEffect(o, cfg, w, db, ip, op);
      EffectAgrees(w, UpdateDb(o, cfg, w, db, ip, op), want, db, ip, op);
    }
  }

  lemma FanOutAgrees(o: Oracle, cfg: Config, w: World, want: map<string, set<string>>,
                     databases: seq<Database>, ip: string, op: Op)
    requires cfg.retry.maxAttempts > 0 && Agrees(w, want)
    ensures Agrees(FanOut(o, cfg, w, databases, ip, op).w, Apply(want, Ids(databases), {NormalizeIP(ip)}, op))
  {
    hide Agrees, Tracks, FanOut, Apply;
    AgreesTracks(o, cfg);
    FanOutTracks(o, cfg, Agrees, w, want, databases, ip, op);
  }

  lemma HandleIPsAgrees(o: Oracle, cfg: Config, w: World, want: map<string, set<string>>,
                        pool: string, ips: seq<string>, operation: string)
    requires cfg.retry.maxAttempts > 0 && Agrees(w, want)
    ensures Agrees(HandleIPs(o, cfg, w, pool, ips, operation).w,
                   Apply(want, Ids(DatabasesFor(cfg.nodepools, pool)), NormSet(ips), OpOf(operation)))
  {
    hide Agrees, Tracks, HandleIPs, Apply, OpOf;
    AgreesTracks(o, cfg);
    HandleIPsTracks(o, cfg, Agrees, w, want, pool, ips, operation);
  }

  lemma NodeEventAgrees(o: Oracle, cfg: Config, w: World, want: map<string, set<string>>,
                        node: Node, ips: seq<string>, operation: string)
    requires cfg.retry.maxAttempts > 0 && Agrees(w, want) && IsOrder(cfg, node, ips)
    ensures Agrees(HandleNodeEvent(o, cfg, w, node, ips, operation).w, ApplyNode(cfg, want, node, OpOf(operation)))
  {
    hide Agrees, Tracks, HandleNodeEvent, ApplyNode, OpOf, IsOrder;
    AgreesTracks(o, cfg);
    NodeEventTracks(o, cfg, Agrees, w, want, node, ips, operation);
  }

  lemma CallbackAgrees(o: Oracle, cfg: Config, w: World, want: map<string, set<string>>, ev: Event)
    requires cfg.retry.maxAttempts > 0 && Agrees(w, want) && OrdersFit(cfg, ev)
    ensures Agrees(Callback(o, cfg, w, ev), ApplyEvent(cfg, want, ev))
  {
    hide Agrees, Tracks, Callback, ApplyEvent, OrdersFit;
    AgreesTracks(o, cfg);
    CallbackTracks(o, cfg, Agrees, w, want, ev);
  }

  lemma RunAgrees(o: Oracle, cfg: Config, w: World, want: map<string, set<string>>, events: seq<Event>)
    requires cfg.retry.maxAttempts > 0 && Agrees(w, want)
    requires forall i | 0 <= i < |events| :: OrdersFit(cfg, events[i])
    ensures Agrees(Run(o, cfg, w, events), ApplyEvents(cfg, want, events))
  {
    hide Agrees, Tracks, Run, ApplyEvents, OrdersFit;
    AgreesTracks(o, cfg);
    RunTracks(o, cfg, Agrees, w, want, events);
  }
}

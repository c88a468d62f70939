/** Calls that return nil: what they leave, list by list, and that it depends on nothing but the
    lists before and the IPs. */
module Determinism {
  import opened Base
  import opened Config
  import opened Addresses
  import opened Ordering
  import opened AllowList
  import opened NodeWatch
  import opened UpdateProofs
  import opened Agreement

  /** The list an operation on `db` works from has the same normalised entries as the remote one. */
  ghost predicate CoherentAt(w: World, db: string) {
    db in w.remote && NormSet(Basis(w, db)) == NormSet(w.remote[db])
  }

  /** Whether an edit changes the set of a list, so that a list is written. */
  ghost predicate Writes(list: seq<string>, x: set<string>, op: Op) {
    Edit(NormSet(list), x, op) != NormSet(list)
  }

  /** The list after an edit: untouched if the edit changes nothing, else the sorted edited set. */
  ghost function Rewritten(list: seq<string>, x: set<string>, op: Op): seq<string> {
    if Writes(list, x, op) then SortedList(Edit(NormSet(list), x, op)) else list
  }

  lemma RewrittenSet(list: seq<string>, x: set<string>, op: Op)
    requires Normalised(x)
    ensures NormSet(Rewritten(list, x, op)) == Edit(NormSet(list), x, op)
  {
    if Writes(list, x, op) {
      NormSetOfSortedList(Edit(NormSet(list), x, op));
    }
  }

  /** Two edits of the same kind make one, down to the list. */
  lemma RewrittenTwice(list: seq<string>, x: set<string>, y: set<string>, op: Op)
    requires Normalised(x)
    ensures Rewritten(Rewritten(list, x, op), y, op) == Rewritten(list, x + y, op)
  {
    hide NormSet;
    RewrittenSet(list, x, op);
    var s := NormSet(list);
    assert Edit(Edit(s, x, op), y, op) == Edit(s, x + y, op);
    assert s <= s + x <= s + (x + y);
    assert s - (x + y) <= s - x <= s;
  }

  /** The joint edit is idle exactly when both parts are. */
  lemma WritesUnion(list: seq<string>, x: set<string>, y: set<string>, op: Op)
    requires Normalised(x)
    ensures Writes(list, x + y, op) <==> Writes(list, x, op) || Writes(Rewritten(list, x, op), y, op)
  {
    RewrittenSet(list, x, op);
    hide NormSet, Rewritten;
    var s := NormSet(list);
    assert Edit(Edit(s, x, op), y, op) == Edit(s, x + y, op);
    assert s <= s + x <= s + (x + y);
    assert s - (x + y) <= s - x <= s;
  }

  /** One database from `w` to `w'`, when it is edited or not: what operations work from is rewritten, and
      the remote list becomes it if that wrote anything. Cache and remote list need not agree. */
  ghost predicate BecameAt(w: World, w': World, db: string, edited: bool, x: set<string>, op: Op) {
    && db in w.remote && db in w'.remote
    && var basis := Basis(w, db);
    && Basis(w', db) == (if edited then Rewritten(basis, x, op) else basis)
    && w'.remote[db] == (if edited && Writes(basis, x, op) then Rewritten(basis, x, op) else w.remote[db])
  }

  /** From `w` to `w'`, exactly the databases `dbs` were edited. */
  ghost predicate Became(w: World, w': World, dbs: set<string>, x: set<string>, op: Op) {
    && w'.remote.Keys == w.remote.Keys
    && forall db | db in w.remote :: BecameAt(w, w', db, db in dbs, x, op)
  }

  // ---------- one operation ----------

  /** A nil return refines the set edit exactly when the basis and the remote list agree where it
      matters: everywhere but at the edited IP when a list was written, at that IP when none was. */
  lemma RefinesIff(o: Oracle, cfg: Config, w: World, db: string, ip: string, op: Op)
    requires cfg.retry.maxAttempts > 0 && db in w.remote
    requires UpdateDb(o, cfg, w, db, ip, op).err.None?
    ensures var w' := UpdateDb(o, cfg, w, db, ip, op).w;
      var x, basis, remote := NormalizeIP(ip), NormSet(Basis(w, db)), NormSet(w.remote[db]);
      && db in w'.remote
      && (NormSet(w'.remote[db]) == Edit(remote, {x}, op) <==>
            if Changes(w, db, ip, op) then basis - {x} == remote - {x} else (x in remote) == (op == Add))
  {
    hide NormSet, UpdateDb, LocalLog, Edited;
    UpdateDbEffect(o, cfg, w, db, ip, op);
    EditedSet(Basis(w, db), ip, op);
    var x, basis, remote := NormalizeIP(ip), NormSet(Basis(w, db)), NormSet(w.remote[db]);
    if Changes(w, db, ip, op) {
      EditsAgreeIff(basis, remote, x, op);
    } else {
      assert Edit(remote, {x}, op) == remote <==> ((x in remote) == (op == Add));
    }
  }

  lemma EditsAgreeIff(a: set<string>, b: set<string>, x: string, op: Op)
    ensures Edit(a, {x}, op) == Edit(b, {x}, op) <==> a - {x} == b - {x}
  {
    assert a + {x} == (a - {x}) + {x} && b + {x} == (b - {x}) + {x};
    assert (a + {x}) - {x} == a - {x} && (b + {x}) - {x} == b - {x};
  }

  /** A nil return is the edit of what the operation works from, down to the list, and touches no
      other database; no coherence is asked. */
  lemma UpdateRefinesEdit(o: Oracle, cfg: Config, w: World, db: string, ip: string, op: Op)
    requires cfg.retry.maxAttempts > 0
    requires UpdateDb(o, cfg, w, db, ip, op).err.None?
    ensures Became(w, UpdateDb(o, cfg, w, db, ip, op).w, {db}, {NormalizeIP(ip)}, op)
  {
    hide NormSet, UpdateDb, LocalLog;
    UpdateDbEffect(o, cfg, w, db, ip, op);
    EditedSet(Basis(w, db), ip, op);
    var s, x := NormSet(Basis(w, db)), NormalizeIP(ip);
    assert Edit(s, {x}, op) == s <==> !Changes(w, db, ip, op);
  }

  /** At a coherent database the edit is that of the remote list itself, list for list, and the database
      stays coherent. */
  lemma CoherentEdit(w: World, w': World, db: string, edited: bool, x: set<string>, op: Op)
    requires BecameAt(w, w', db, edited, x, op) && CoherentAt(w, db) && Normalised(x)
    ensures CoherentAt(w', db)
    ensures w'.remote[db] == if edited then Rewritten(w.remote[db], x, op) else w.remote[db]
  {
    hide NormSet;
    RewrittenSet(Basis(w, db), x, op);
  }

  /** Every list an operation writes, over all its retries, is the same one, strictly sorted and
      fully normalised; all PUTs go to its own database. */
  lemma RetriesWriteOneList(o: Oracle, cfg: Config, w: World, db: string, ip: string, op: Op)
    requires cfg.retry.maxAttempts > 0
    ensures var log := UpdateDb(o, cfg, w, db, ip, op).w.log;
      var target := Target(w, db, ip, op);
      && StrictlySorted(target) && Normalised(Elements(target))
      && w.log <= log
      && forall i | |w.log| <= i < |log| && log[i].Put? :: log[i].db == db && log[i].list == target
  {
    hide UpdateDb, NormSet, Pending, Settled;
    var s := UpdateDb(o, cfg, w, db, ip, op);
    UpdateDbEffect(o, cfg, w, db, ip, op);
    EffectLog(w, s, db, ip, op);
    NormSetNormalised(Basis(w, db));
  }

  lemma EffectLog(w: World, s: Step, db: string, ip: string, op: Op)
    requires Effect(w, s, db, ip, op)
    ensures s.w.log != [] && w.log <= s.w.log[..|s.w.log| - 1]
    ensures forall i | |w.log| <= i < |s.w.log| - 1 :: Local(s.w.log[i], db, Target(w, db, ip, op))
    ensures s.w.log[|s.w.log| - 1] == Done(db, ip, op, s.err)
  {
    hide OthersUntouched, Changes, Target, Local;
  }

  // ---------- fan-out and node events ----------

  lemma BecameNothing(w: World, x: set<string>, op: Op)
    ensures Became(w, w, {}, x, op)
  {
  }

  lemma BecameNothingNew(w: World, dbs: set<string>, op: Op)
    ensures Became(w, w, dbs, {}, op)
  {
    hide NormSet;
    assert forall s: set<string> :: s + {} == s && s - {} == s;
  }

  lemma SameEditTwice(w: World, v: World, w': World, db: string, x: set<string>, op: Op)
    requires Normalised(x) && BecameAt(w, v, db, true, x, op) && BecameAt(v, w', db, true, x, op)
    ensures BecameAt(w, w', db, true, x, op)
  {
    assert x + x == x;
    MoreEntriesAt(w, v, w', db, x, x, op);
  }

  lemma MoreEntriesAt(w: World, v: World, w': World, db: string, x: set<string>, y: set<string>, op: Op)
    requires Normalised(x) && BecameAt(w, v, db, true, x, op) && BecameAt(v, w', db, true, y, op)
    ensures BecameAt(w, w', db, true, x + y, op)
  {
    hide Writes;
    RewrittenTwice(Basis(w, db), x, y, op);
    WritesUnion(Basis(w, db), x, y, op);
  }

  lemma BecameMoreDatabases(w: World, v: World, w': World, a: set<string>, b: set<string>, x: set<string>, op: Op)
    requires Normalised(x) && Became(w, v, a, x, op) && Became(v, w', b, x, op)
    ensures Became(w, w', a + b, x, op)
  {
    forall db | db in w.remote ensures BecameAt(w, w', db, db in a + b, x, op) {
      assert BecameAt(w, v, db, db in a, x, op) && BecameAt(v, w', db, db in b, x, op);
      hide Rewritten, Writes, Basis, Became;
      if db in a && db in b {
        SameEditTwice(w, v, w', db, x, op);
      }
    }
  }

  lemma BecameMoreEntries(w: World, v: World, w': World, dbs: set<string>, x: set<string>, y: set<string>, op: Op)
    requires Normalised(x) && Became(w, v, dbs, x, op) && Became(v, w', dbs, y, op)
    ensures Became(w, w', dbs, x + y, op)
  {
    forall db | db in w.remote ensures BecameAt(w, w', db, db in dbs, x + y, op) {
      assert BecameAt(w, v, db, db in dbs, x, op) && BecameAt(v, w', db, db in dbs, y, op);
      hide Rewritten, Writes, Basis, Became;
      if db in dbs {
        MoreEntriesAt(w, v, w', db, x, y, op);
      }
    }
  }

  lemma {:induction false} FanOutRefines(o: Oracle, cfg: Config, w: World, databases: seq<Database>, ip: string, op: Op)
    requires cfg.retry.maxAttempts > 0
    requires FanOut(o, cfg, w, databases, ip, op).err.None?
    ensures Became(w, FanOut(o, cfg, w, databases, ip, op).w, Ids(databases), {NormalizeIP(ip)}, op)
  {
    hide Became, UpdateDb;
    var x := {NormalizeIP(ip)};
    if databases == [] {
      BecameNothing(w, x, op);
      assert Ids(databases) == {};
    } else {
      var front, last := databases[..|databases| - 1], databases[|databases| - 1];
      FanOutRefines(o, cfg, w, front, ip, op);
      var prior := FanOut(o, cfg, w, front, ip, op).w;
      UpdateRefinesEdit(o, cfg, prior, last.id, ip, op);
      BecameMoreDatabases(w, prior, UpdateDb(o, cfg, prior, last.id, ip, op).w, Ids(front), {last.id}, x, op);
      assert databases == front + [last];
      assert Ids(databases) == Ids(front) + {last.id};
    }
  }

  lemma {:induction false} HandleIPsRefines(o: Oracle, cfg: Config, w: World, pool: string, ips: seq<string>,
                                            operation: string)
    requires cfg.retry.maxAttempts > 0
    requires HandleIPs(o, cfg, w, pool, ips, operation).err.None?
    ensures Became(w, HandleIPs(o, cfg, w, pool, ips, operation).w,
                   Ids(DatabasesFor(cfg.nodepools, pool)), NormSet(ips), OpOf(operation))
  {
    hide Became, FanOut, OpOf;
    var dbs, op := Ids(DatabasesFor(cfg.nodepools, pool)), OpOf(operation);
    if ips == [] {
      assert NormSet(ips) == {};
      BecameNothingNew(w, dbs, op);
    } else {
      var front, last := ips[..|ips| - 1], ips[|ips| - 1];
      HandleIPsRefines(o, cfg, w, pool, front, operation);
      var prior, done := HandleIPs(o, cfg, w, pool, front, operation).w, HandleIPs(o, cfg, w, pool, ips, operation).w;
      FanOutRefines(o, cfg, prior, DatabasesFor(cfg.nodepools, pool), last, op);
      NormSetNormalised(front);
      BecameMoreEntries(w, prior, done, dbs, NormSet(front), {NormalizeIP(last)}, op);
      NormSetStep(ips, |ips| - 1);
      assert ips[..|ips|] == ips;
    }
  }

  /** A node event that returns nil edits exactly the node's databases by exactly its entries, from
      any world. */
  lemma NodeEventRefines(o: Oracle, cfg: Config, w: World, node: Node, ips: seq<string>, operation: string)
    requires cfg.retry.maxAttempts > 0 && IsOrder(cfg, node, ips)
    requires HandleNodeEvent(o, cfg, w, node, ips, operation).err.None?
    ensures Became(w, HandleNodeEvent(o, cfg, w, node, ips, operation).w,
                   NodeDatabases(cfg, node), NodeEntries(cfg, node), OpOf(operation))
  {
    hide Became, HandleIPs, IsOrder, OpOf;
    OrderEntries(cfg, node, ips);
    HandleIPsRefines(o, cfg, w, LabelOf(cfg, node), ips, operation);
  }

  /** Determinism despite map iteration: from any world, however stale its cache, two handlings of one
      node event that return nil leave identical remote lists, in whatever orders the IPs came out and
      whatever attempts failed on the way. */
  lemma IterationOrderIrrelevant(o1: Oracle, o2: Oracle, cfg: Config, w: World, node: Node,
                                 ips1: seq<string>, ips2: seq<string>, operation: string)
    requires cfg.retry.maxAttempts > 0
    requires IsOrder(cfg, node, ips1) && IsOrder(cfg, node, ips2)
    requires HandleNodeEvent(o1, cfg, w, node, ips1, operation).err.None?
    requires HandleNodeEvent(o2, cfg, w, node, ips2, operation).err.None?
    ensures HandleNodeEvent(o1, cfg, w, node, ips1, operation).w.remote ==
            HandleNodeEvent(o2, cfg, w, node, ips2, operation).w.remote
  {
    hide HandleNodeEvent, IsOrder, Became;
    NodeEventRefines(o1, cfg, w, node, ips1, operation);
    NodeEventRefines(o2, cfg, w, node, ips2, operation);
    BecameOnlyOne(w, HandleNodeEvent(o1, cfg, w, node, ips1, operation).w,
                  HandleNodeEvent(o2, cfg, w, node, ips2, operation).w,
                  NodeDatabases(cfg, node), NodeEntries(cfg, node), OpOf(operation));
  }

  lemma BecameOnlyOne(w: World, a: World, b: World, dbs: set<string>, x: set<string>, op: Op)
    requires Became(w, a, dbs, x, op) && Became(w, b, dbs, x, op)
    ensures a.remote == b.remote
  {
    hide Rewritten, Writes;
    forall db | db in w.remote ensures a.remote[db] == b.remote[db] {
      assert BecameAt(w, a, db, db in dbs, x, op) && BecameAt(w, b, db, db in dbs, x, op);
    }
  }

  // ---------- sets of entries ----------

  /** The remote set of an edited database: that of the basis if a list is written, else the old one. */
  ghost function Left(basis: set<string>, remote: set<string>, x: set<string>, op: Op): set<string> {
    if Edit(basis, x, op) != basis then Edit(basis, x, op) else remote
  }

  lemma BecameSets(w: World, w': World, db: string, edited: bool, x: set<string>, op: Op)
    requires BecameAt(w, w', db, edited, x, op) && Normalised(x)
    ensures var basis, remote := NormSet(Basis(w, db)), NormSet(w.remote[db]);
      && db in w'.remote
      && NormSet(w'.remote[db]) == (if edited then Left(basis, remote, x, op) else remote)
      && NormSet(Basis(w', db)) == (if edited then Edit(basis, x, op) else basis)
  {
    hide NormSet, Rewritten;
    RewrittenSet(Basis(w, db), x, op);
  }

  /** The entries of a node on a database: none if it is not one of its pool's. */
  ghost function EntriesOn(cfg: Config, node: Node, db: string): set<string> {
    if db in NodeDatabases(cfg, node) then NodeEntries(cfg, node) else {}
  }

  /** Every database after a node event that returned nil, as sets. */
  lemma NodeEventSets(o: Oracle, cfg: Config, w: World, node: Node, ips: seq<string>, operation: string, db: string)
    requires cfg.retry.maxAttempts > 0 && IsOrder(cfg, node, ips) && db in w.remote
    requires HandleNodeEvent(o, cfg, w, node, ips, operation).err.None?
    ensures var w' := HandleNodeEvent(o, cfg, w, node, ips, operation).w;
      var x, op := EntriesOn(cfg, node, db), OpOf(operation);
      && db in w'.remote
      && NormSet(w'.remote[db]) == Left(NormSet(Basis(w, db)), NormSet(w.remote[db]), x, op)
      && NormSet(Basis(w', db)) == Edit(NormSet(Basis(w, db)), x, op)
  {
    hide HandleNodeEvent, IsOrder, NormSet, NodeDatabases, Selected, BecameAt, OpOf, Basis;
    NodeEventRefines(o, cfg, w, node, ips, operation);
    var w', op := HandleNodeEvent(o, cfg, w, node, ips, operation).w, OpOf(operation);
    BecameSets(w, w', db, db in NodeDatabases(cfg, node), NodeEntries(cfg, node), op);
    assert forall t: set<string> :: t + {} == t && t - {} == t;
  }

  /** Where two sets agree off the edited entries, their edits are equal, and conversely. */
  lemma EditsEqualIff(a: set<string>, b: set<string>, x: set<string>, op: Op)
    ensures Edit(a, x, op) == Edit(b, x, op) <==> a - x == b - x
  {
    assert a + x == (a - x) + x && b + x == (b - x) + x;
    assert (a + x) - x == a - x && (b + x) - x == b - x;
  }

  /** A node event that returns nil refines the set edit of the remote list exactly when basis and remote
      list agree off the node's entries, if the event wrote a list, or when the remote list is already
      as asked, if it wrote none. A coherent database meets this and stays coherent. */
  lemma NodeEventRefinesIff(o: Oracle, cfg: Config, w: World, node: Node, ips: seq<string>, operation: string,
                            db: string)
    requires cfg.retry.maxAttempts > 0 && IsOrder(cfg, node, ips) && db in w.remote
    requires HandleNodeEvent(o, cfg, w, node, ips, operation).err.None?
    ensures var w' := HandleNodeEvent(o, cfg, w, node, ips, operation).w;
      var basis, remote := NormSet(Basis(w, db)), NormSet(w.remote[db]);
      var x, op := EntriesOn(cfg, node, db), OpOf(operation);
      && db in w'.remote
      && (NormSet(w'.remote[db]) == Edit(remote, x, op) <==>
            if Edit(basis, x, op) != basis then basis - x == remote - x else Edit(remote, x, op) == remote)
      && (CoherentAt(w, db) ==> NormSet(w'.remote[db]) == Edit(remote, x, op) && CoherentAt(w', db))
  {
    hide HandleNodeEvent, IsOrder, NormSet, EntriesOn, Basis, OpOf, Edit;
    NodeEventSets(o, cfg, w, node, ips, operation, db);
    EditsEqualIff(NormSet(Basis(w, db)), NormSet(w.remote[db]), EntriesOn(cfg, node, db), OpOf(operation));
  }

  // ---------- pool moves ----------

  /** The entries a move between pools is to leave at one database: `was` out, then `now` in. */
  ghost function Moved(s: set<string>, was: set<string>, now: set<string>): set<string> {
    s - was + now
  }

  /** Exactly when a successful move leaves a database as it is to: if either handler wrote a list, basis
      and remote list must agree off the node's entries; if neither did, the remote list must hold the
      new entries and none of the old ones besides. */
  ghost predicate MoveFits(basis: set<string>, remote: set<string>, was: set<string>, now: set<string>) {
    if Moved(basis, was, now) != basis || basis * was != {}
    then basis - (was + now) == remote - (was + now)
    else remote * was <= now <= remote
  }

  lemma RemovalIdle(s: set<string>, x: set<string>)
    ensures s - x == s <==> s * x == {}
  {
    if s * x != {} {
      var e :| e in s * x;
      assert e in s && e !in s - x;
    } else {
      assert forall e | e in s :: e in x ==> e in s * x;
      assert s - x == s;
    }
  }

  lemma MoveFitsIff(basis: set<string>, remote: set<string>, was: set<string>, now: set<string>)
    ensures Left(Edit(basis, was, Remove), Left(basis, remote, was, Remove), now, Add) == Moved(remote, was, now)
      <==> MoveFits(basis, remote, was, now)
    ensures basis == remote ==> MoveFits(basis, remote, was, now)
  {
    RemovalIdle(basis, was);
    assert remote - was + now == remote <==> remote * was <= now <= remote by {
      if remote - was + now == remote {
        forall e | e in remote * was ensures e in now { assert e in remote - was + now; }
      }
    }
    assert Moved(basis, was, now) - (was + now) == basis - (was + now);
    assert Moved(remote, was, now) - (was + now) == remote - (was + now);
    assert forall s: set<string> :: s - was + now == (s - (was + now)) + now;
    assert basis * was == {} && now <= basis ==> Moved(basis, was, now) == basis;
  }

  /** A node that moves between watched pools, both handlers returning nil, at each database: it ends as
      it is to exactly when `MoveFits`. A coherent database always does and stays coherent; it then has the
      new entries if it is the new pool's, shared or not, and none of the old ones if it is the old pool's only. */
  lemma PoolMove(o: Oracle, cfg: Config, w: World, v: World, before: Node, after: Node,
                 beforeIPs: seq<string>, afterIPs: seq<string>, db: string)
    requires cfg.retry.maxAttempts > 0 && db in w.remote
    requires IsOrder(cfg, before, beforeIPs) && IsOrder(cfg, after, afterIPs)
    requires IsWatched(cfg, before) && IsWatched(cfg, after) && LabelOf(cfg, before) != LabelOf(cfg, after)
    requires HandleNodeEvent(o, cfg, w, before, beforeIPs, "delete") == Step(v, None)
    requires HandleNodeEvent(o, cfg, v, after, afterIPs, "add").err.None?
    ensures var w' := Callback(o, cfg, w, Updated(before, after, beforeIPs, afterIPs));
      var was, now := EntriesOn(cfg, before, db), EntriesOn(cfg, after, db);
      && db in w'.remote
      && (NormSet(w'.remote[db]) == Moved(NormSet(w.remote[db]), was, now) <==>
            MoveFits(NormSet(Basis(w, db)), NormSet(w.remote[db]), was, now))
      && (CoherentAt(w, db) ==>
            && CoherentAt(w', db)
            && (db in NodeDatabases(cfg, after) ==> NodeEntries(cfg, after) <= NormSet(w'.remote[db]))
            && (db in NodeDatabases(cfg, before) - NodeDatabases(cfg, after) ==>
                  NodeEntries(cfg, before) !! NormSet(w'.remote[db])))
  {
    assert OpOf("add") == Add && OpOf("delete") == Remove;
    hide HandleNodeEvent, IsOrder, NodeEntries, NodeDatabases, OpOf, IsWatched, LabelOf, Callback, NormSet, Basis,
      MoveFits, Left;
    MoveCallback(o, cfg, w, v, before, after, beforeIPs, afterIPs);
    NodeEventSets(o, cfg, w, before, beforeIPs, "delete", db);
    NodeEventSets(o, cfg, v, after, afterIPs, "add", db);
    MoveFitsIff(NormSet(Basis(w, db)), NormSet(w.remote[db]), EntriesOn(cfg, before, db), EntriesOn(cfg, after, db));
  }

  lemma MoveCallback(o: Oracle, cfg: Config, w: World, v: World, before: Node, after: Node,
                     beforeIPs: seq<string>, afterIPs: seq<string>)
    requires IsWatched(cfg, before) && IsWatched(cfg, after) && LabelOf(cfg, before) != LabelOf(cfg, after)
    requires v == HandleNodeEvent(o, cfg, w, before, beforeIPs, "delete").w
    ensures Callback(o, cfg, w, Updated(before, after, beforeIPs, afterIPs)) ==
            HandleNodeEvent(o, cfg, v, after, afterIPs, "add").w
  {
    hide HandleNodeEvent, IsWatched, LabelOf;
  }

  /** Deleting before adding is what makes this work. Were the new node handled first and the old one
      second, both with success, a database of both pools would end with the new entries exactly when none
      of them is an old entry and they were written or already there. */
  lemma OppositeOrderLosesSharedEntries(o: Oracle, cfg: Config, w: World, v: World, before: Node, after: Node,
                                        beforeIPs: seq<string>, afterIPs: seq<string>, db: string)
    requires cfg.retry.maxAttempts > 0 && db in w.remote
    requires IsOrder(cfg, before, beforeIPs) && IsOrder(cfg, after, afterIPs)
    requires db in NodeDatabases(cfg, before) && db in NodeDatabases(cfg, after)
    requires HandleNodeEvent(o, cfg, w, after, afterIPs, "add") == Step(v, None)
    requires HandleNodeEvent(o, cfg, v, before, beforeIPs, "delete").err.None?
    ensures var w' := HandleNodeEvent(o, cfg, v, before, beforeIPs, "delete").w;
      var basis, was, now := NormSet(Basis(w, db)), NodeEntries(cfg, before), NodeEntries(cfg, after);
      var written := !(now <= basis) || basis * was != {};
      && db in w'.remote
      && (now <= NormSet(w'.remote[db]) <==> now !! was && (written || now <= NormSet(w.remote[db])))
      && (CoherentAt(w, db) ==> (now <= NormSet(w'.remote[db]) <==> now !! was))
  {
    assert OpOf("add") == Add && OpOf("delete") == Remove;
    hide HandleNodeEvent, IsOrder, NodeEntries, NodeDatabases, OpOf, NormSet, Basis;
    NodeEventSets(o, cfg, w, after, afterIPs, "add", db);
    NodeEventSets(o, cfg, v, before, beforeIPs, "delete", db);
    OppositeSets(NormSet(Basis(w, db)), NormSet(w.remote[db]), NodeEntries(cfg, before), NodeEntries(cfg, after));
  }

  lemma OppositeSets(basis: set<string>, remote: set<string>, was: set<string>, now: set<string>)
    ensures var left := Left(Edit(basis, now, Add), Left(basis, remote, now, Add), was, Remove);
      var written := !(now <= basis) || basis * was != {};
      now <= left <==> now !! was && (written || now <= remote)
  {
    assert basis + now == basis <==> now <= basis;
    RemovalIdle(basis + now, was);
    assert (basis + now) * was == basis * was + now * was;
    if !(now !! was) {
      var e :| e in now && e in was;
      assert e in (basis + now) * was && e !in basis + now - was;
    }
  }
}

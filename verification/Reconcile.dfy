/** Whole runs: the remote lists hold the foreign entries and the IPs of the live watched nodes. */
module Reconcile {
  import opened Base
  import opened Config
  import opened Addresses
  import opened AllowList
  import opened NodeWatch
  import opened Agreement

  /** The nodes the informer currently knows, by name. */
  type Store = map<string, Node>

  function EventName(ev: Event): string {
    match ev
    case Added(node, _) => node.name
    case Deleted(node, _) => node.name
    case Updated(before, _, _, _) => before.name
  }

  /** The callback agrees with the store: nothing is added twice, and what is updated or deleted is
      what the store holds. */
  ghost predicate Follows(store: Store, ev: Event) {
    match ev
    case Added(node, _) => node.name !in store
    case Deleted(node, _) => node.name in store && store[node.name] == node
    case Updated(before, after, _, _) =>
      before.name in store && store[before.name] == before && after.name == before.name
  }

  function After(store: Store, ev: Event): Store {
    match ev
    case Added(node, _) => store[node.name := node]
    case Deleted(node, _) => store - {node.name}
    case Updated(before, after, _, _) => store[before.name := after]
  }

  function StoreAfter(events: seq<Event>): Store {
    if events == [] then map[] else After(StoreAfter(events[..|events| - 1]), events[|events| - 1])
  }

  /** The entries a node is entitled to on a database. */
  ghost function Holds(cfg: Config, node: Node, db: string): set<string> {
    if IsWatched(cfg, node) && db in NodeDatabases(cfg, node) then NodeEntries(cfg, node) else {}
  }

  ghost function HoldsIfAny(cfg: Config, node: Option<Node>, db: string): set<string> {
    if node.Some? then Holds(cfg, node.value, db) else {}
  }

  ghost function Live(cfg: Config, store: Store, db: string): set<string> {
    set name, e | name in store && e in Holds(cfg, store[name], db) :: e
  }

  /** The specification: foreign entries and the entries of the live watched nodes. */
  ghost function Wanted(cfg: Config, foreign: map<string, set<string>>, store: Store): map<string, set<string>> {
    map db | db in foreign :: foreign[db] + Live(cfg, store, db)
  }

  /** The node's label names a pool, the first of that name, and `db` is among its databases. */
  ghost predicate LabelledFor(cfg: Config, node: Node, db: string) {
    && cfg.nodepoolLabelKey in node.labels
    && node.labels[cfg.nodepoolLabelKey] != ""
    && exists i | 0 <= i < |cfg.nodepools| ::
         && cfg.nodepools[i].name == node.labels[cfg.nodepoolLabelKey]
         && (forall k | 0 <= k < i :: cfg.nodepools[k].name != node.labels[cfg.nodepoolLabelKey])
         && exists d | d in cfg.nodepools[i].databases :: d.id == db
  }

  /** An external address of an enabled family whose entry is `e`. */
  ghost predicate EntryOf(cfg: Config, a: Address, e: string) {
    && a.kind == ExternalIP
    && (if ':' in a.text then cfg.enableIPv6 else cfg.enableIPv4)
    && e == if '/' in a.text then a.text else if ':' in a.text then a.text + "/128" else a.text + "/32"
  }

  lemma LabelledIff(cfg: Config, node: Node, db: string)
    ensures LabelledFor(cfg, node, db) <==> IsWatched(cfg, node) && db in NodeDatabases(cfg, node)
  {
    FirstPoolWins(cfg.nodepools, LabelOf(cfg, node));
  }

  lemma EntryIff(cfg: Config, node: Node, e: string)
    ensures (exists a | a in node.addresses :: EntryOf(cfg, a, e)) <==> e in NodeEntries(cfg, node)
  {
    if e in NodeEntries(cfg, node) {
      var ip :| ip in Selected(cfg, node) && NormalizeIP(ip) == e;
      var a :| a in node.addresses && IsWanted(cfg, a) && a.text == ip;
      assert EntryOf(cfg, a, e);
    }
    forall a | a in node.addresses && EntryOf(cfg, a, e) ensures e in NodeEntries(cfg, node) {
      assert IsWanted(cfg, a) && a.text in Selected(cfg, node);
    }
  }

  /** The specification in terms of the configuration and the fields of the nodes. */
  lemma SpecificationByFields(cfg: Config, foreign: map<string, set<string>>, store: Store, db: string, e: string)
    requires db in foreign
    ensures e in Wanted(cfg, foreign, store)[db] <==>
      || e in foreign[db]
      || exists name | name in store ::
           LabelledFor(cfg, store[name], db) && exists a | a in store[name].addresses :: EntryOf(cfg, a, e)
  {
    hide LabelledFor, EntryOf, IsWatched, NodeDatabases, NodeEntries;
    forall name | name in store
      ensures e in Holds(cfg, store[name], db) <==>
        LabelledFor(cfg, store[name], db) && exists a | a in store[name].addresses :: EntryOf(cfg, a, e)
    {
      LabelledIff(cfg, store[name], db);
      EntryIff(cfg, store[name], e);
    }
  }

  /** What a database is owed without regard to one node. */
  ghost function Others(cfg: Config, foreign: map<string, set<string>>, store: Store, name: string,
                        db: string): set<string>
    requires db in foreign
  {
    foreign[db] + Live(cfg, store - {name}, db)
  }

  /** The exact condition under which a callback keeps the specification. A removal must not take an
      entry that is foreign or belongs to another live node on that database, unless the node's own
      move adds it back; and an update inside one pool, which the code ignores, must not change what
      the node alone contributes. */
  ghost predicate KeepsAt(cfg: Config, foreign: map<string, set<string>>, store: Store, ev: Event, db: string)
    requires db in foreign
  {
    var others := Others(cfg, foreign, store, EventName(ev), db);
    var was, now := HoldsIfAny(cfg, OldNode(ev), db), HoldsIfAny(cfg, NewNode(ev), db);
    if Removes(cfg, ev) then others * was <= now
    else Adds(cfg, ev) || was - others == now - others
  }

  ghost predicate Keeps(cfg: Config, foreign: map<string, set<string>>, store: Store, ev: Event) {
    forall db | db in foreign :: KeepsAt(cfg, foreign, store, ev, db)
  }

  lemma LiveInsert(cfg: Config, store: Store, node: Node, name: string, db: string)
    ensures Live(cfg, store[name := node], db) == Live(cfg, store - {name}, db) + Holds(cfg, node, db)
  {
    hide Holds;
    var with, without := store[name := node], store - {name};
    forall e | e in Live(cfg, without, db) + Holds(cfg, node, db) ensures e in Live(cfg, with, db) {
      if e in Holds(cfg, node, db) {
        assert name in with && e in Holds(cfg, with[name], db);
      } else {
        var n :| n in without && e in Holds(cfg, without[n], db);
        assert n in with && with[n] == without[n];
      }
    }
    forall e | e in Live(cfg, with, db) ensures e in Live(cfg, without, db) + Holds(cfg, node, db) {
      var n :| n in with && e in Holds(cfg, with[n], db);
      if n != name {
        assert n in without && without[n] == with[n];
      }
    }
  }

  /** Before and after the event, the specification is the others plus the event's own node. */
  lemma WantedSplits(cfg: Config, foreign: map<string, set<string>>, store: Store, ev: Event, db: string)
    requires Follows(store, ev) && db in foreign
    ensures var others := Others(cfg, foreign, store, EventName(ev), db);
      && Wanted(cfg, foreign, store)[db] == others + HoldsIfAny(cfg, OldNode(ev), db)
      && Wanted(cfg, foreign, After(store, ev))[db] == others + HoldsIfAny(cfg, NewNode(ev), db)
  {
    hide Live, Holds;
    var name := EventName(ev);
    if NewNode(ev).Some? {
      LiveInsert(cfg, store, NewNode(ev).value, name, db);
    }
    if OldNode(ev).Some? {
      LiveInsert(cfg, store, OldNode(ev).value, name, db);
      assert store[name := OldNode(ev).value] == store;
    } else {
      assert store - {name} == store;
    }
  }

  /** What the code makes of the specification at one database. */
  lemma EventOutcome(cfg: Config, foreign: map<string, set<string>>, store: Store, ev: Event, db: string)
    requires Follows(store, ev) && db in foreign
    ensures var others := Others(cfg, foreign, store, EventName(ev), db);
      var was, now := HoldsIfAny(cfg, OldNode(ev), db), HoldsIfAny(cfg, NewNode(ev), db);
      && db in ApplyEvent(cfg, Wanted(cfg, foreign, store), ev)
      && ApplyEvent(cfg, Wanted(cfg, foreign, store), ev)[db] ==
         (if Removes(cfg, ev) then others - was else others + was) + (if Adds(cfg, ev) then now else {})
  {
    hide Live, NodeEntries, NodeDatabases, IsWatched, LabelOf;
    WantedSplits(cfg, foreign, store, ev, db);
    var others := Others(cfg, foreign, store, EventName(ev), db);
    var was := HoldsIfAny(cfg, OldNode(ev), db);
    assert others + was - was == others - was;
  }

  lemma KeepsAtIff(cfg: Config, foreign: map<string, set<string>>, store: Store, ev: Event, db: string)
    requires Follows(store, ev) && db in foreign
    ensures db in ApplyEvent(cfg, Wanted(cfg, foreign, store), ev)
    ensures ApplyEvent(cfg, Wanted(cfg, foreign, store), ev)[db] == Wanted(cfg, foreign, After(store, ev))[db]
      <==> KeepsAt(cfg, foreign, store, ev, db)
  {
    EventOutcome(cfg, foreign, store, ev, db);
    WantedSplits(cfg, foreign, store, ev, db);
    hide ApplyEvent, Wanted, Others, NodeEntries, NodeDatabases;
    var others := Others(cfg, foreign, store, EventName(ev), db);
    var was, now := HoldsIfAny(cfg, OldNode(ev), db), HoldsIfAny(cfg, NewNode(ev), db);
    if Removes(cfg, ev) {
      assert Adds(cfg, ev) || now == {};
      RemovalIff(others, was, now);
    } else if Adds(cfg, ev) {
      assert was == {};
    } else {
      UnchangedIff(others, was, now);
    }
  }

  lemma RemovalIff(others: set<string>, was: set<string>, now: set<string>)
    ensures others - was + now == others + now <==> others * was <= now
  {
    if others - was + now == others + now {
      forall e | e in others * was ensures e in now {
        assert e in others - was + now;
      }
    }
  }

  lemma UnchangedIff(others: set<string>, was: set<string>, now: set<string>)
    ensures others + was == others + now <==> was - others == now - others
  {
    if was - others == now - others {
      assert others + was == others + (was - others);
      assert others + now == others + (now - others);
    } else {
      assert was - others == (others + was) - others;
      assert now - others == (others + now) - others;
    }
  }

  lemma ApplyEventKeys(cfg: Config, want: map<string, set<string>>, ev: Event)
    ensures ApplyEvent(cfg, want, ev).Keys == want.Keys
  {
  }

  lemma KeepsIff(cfg: Config, foreign: map<string, set<string>>, store: Store, ev: Event)
    requires Follows(store, ev)
    ensures ApplyEvent(cfg, Wanted(cfg, foreign, store), ev) == Wanted(cfg, foreign, After(store, ev))
      <==> Keeps(cfg, foreign, store, ev)
  {
    var got, want := ApplyEvent(cfg, Wanted(cfg, foreign, store), ev), Wanted(cfg, foreign, After(store, ev));
    ApplyEventKeys(cfg, Wanted(cfg, foreign, store), ev);
    assert got.Keys == foreign.Keys == want.Keys;
    hide ApplyEvent, Wanted, KeepsAt;
    forall db | db in foreign ensures got[db] == want[db] <==> KeepsAt(cfg, foreign, store, ev, db) {
      KeepsAtIff(cfg, foreign, store, ev, db);
    }
  }

  // ---------- runs ----------

  lemma FetchAgrees(o: Oracle, w: World, want: map<string, set<string>>, db: string)
    requires Agrees(w, want)
    ensures Agrees(Fetch(o, w, db).w, want)
  {
    hide ListAgrees, Failed;
    var a := Wait(o, w);
    var g := Get(o, a.w, db);
    forall d ensures Failed(a.w.log, d) == Failed(w.log, d) && Failed(g.w.log, d) == Failed(w.log, d) {
      FailedAppend(w.log, a.w.log[|w.log|], d);
      FailedAppend(a.w.log, g.w.log[|a.w.log|], d);
    }
  }

  lemma {:induction false} InitializeAgrees(o: Oracle, w: World, want: map<string, set<string>>, ids: seq<string>)
    requires Agrees(w, want)
    ensures Agrees(Initialize(o, w, ids).w, want)
  {
    hide Agrees, Fetch;
    if ids == [] {
    } else {
      InitializeAgrees(o, w, want, ids[..|ids| - 1]);
      FetchAgrees(o, Initialize(o, w, ids[..|ids| - 1]).w, want, ids[|ids| - 1]);
    }
  }

  /** The entries found in the lists when the controller starts. */
  ghost function Foreign(remote: map<string, seq<string>>): map<string, set<string>> {
    map db | db in remote :: NormSet(remote[db])
  }

  lemma FreshWorldAgrees(remote: map<string, seq<string>>)
    ensures Agrees(World(remote, map[], []), Foreign(remote))
  {
  }

  ghost predicate AllOrdersFit(cfg: Config, events: seq<Event>) {
    forall i | 0 <= i < |events| :: OrdersFit(cfg, events[i])
  }

  lemma ControllerAgrees(o: Oracle, cfg: Config, remote: map<string, seq<string>>, order: seq<string>,
                         events: seq<Event>)
    requires Validated(cfg) && AllOrdersFit(cfg, events)
    ensures Agrees(Controller(o, cfg, remote, order, events), ApplyEvents(cfg, Foreign(remote), events))
  {
    hide Agrees, Run, Initialize, ApplyEvents, OrdersFit;
    FreshWorldAgrees(remote);
    InitializeAgrees(o, World(remote, map[], []), Foreign(remote), order);
    RunAgrees(o, cfg, Initialize(o, World(remote, map[], []), order).w, Foreign(remote), events);
  }

  /** Cache divergence bound: after any callbacks whatever, with any failures and ambiguous PUTs, a
      cached list and its remote list differ only on IPs with a failed operation on that database. */
  lemma CacheDivergenceBounded(o: Oracle, cfg: Config, remote: map<string, seq<string>>, order: seq<string>,
                               events: seq<Event>)
    requires Validated(cfg) && AllOrdersFit(cfg, events)
    ensures var w := Controller(o, cfg, remote, order, events);
      forall db | db in w.cache ::
        && db in w.remote
        && AgreeOff(NormSet(w.cache[db]), NormSet(w.remote[db]), Failed(w.log, db))
  {
    hide Controller, ApplyEvents, NormSet, Failed;
    ControllerAgrees(o, cfg, remote, order, events);
  }

  /** Every callback of the run agrees with the store and meets the exact condition. */
  ghost predicate Orderly(cfg: Config, foreign: map<string, set<string>>, events: seq<Event>) {
    events != [] ==>
      var front, last := events[..|events| - 1], events[|events| - 1];
      && Orderly(cfg, foreign, front)
      && Follows(StoreAfter(front), last)
      && Keeps(cfg, foreign, StoreAfter(front), last)
  }

  lemma {:induction false} EventsReachWanted(cfg: Config, foreign: map<string, set<string>>, events: seq<Event>)
    requires Orderly(cfg, foreign, events)
    ensures ApplyEvents(cfg, foreign, events) == Wanted(cfg, foreign, StoreAfter(events))
  {
    if events == [] {
      assert forall db | db in foreign :: foreign[db] + Live(cfg, map[], db) == foreign[db];
    } else {
      hide ApplyEvent, Wanted, Keeps, Follows, After;
      var front := events[..|events| - 1];
      EventsReachWanted(cfg, foreign, front);
      KeepsIff(cfg, foreign, StoreAfter(front), events[|events| - 1]);
    }
  }

  /** The remote list of `db` is the wanted set except on IPs that had an operation on it return an
      error; with no such IP it is exactly the wanted set. */
  ghost predicate Reconciled(w: World, db: string, wanted: set<string>) {
    && db in w.remote
    && AgreeOff(NormSet(w.remote[db]), wanted, Failed(w.log, db))
    && (Failed(w.log, db) == {} ==> NormSet(w.remote[db]) == wanted)
  }

  /** Whole-run agreement with error containment. After any orderly sequence of callbacks, whatever
      calls fail and whichever failed PUTs took effect, the remote list of each database is the
      foreign entries and the entries of the live watched nodes, except on IPs that had an operation
      on that database return an error. */
  lemma WholeRunAgreement(o: Oracle, cfg: Config, remote: map<string, seq<string>>, order: seq<string>,
                          events: seq<Event>, db: string)
    requires Validated(cfg) && AllOrdersFit(cfg, events) && Orderly(cfg, Foreign(remote), events) && db in remote
    ensures Reconciled(Controller(o, cfg, remote, order, events), db,
                       NormSet(remote[db]) + Live(cfg, StoreAfter(events), db))
  {
    hide Controller, ApplyEvents, NormSet, Failed, Live, Orderly;
    ControllerAgrees(o, cfg, remote, order, events);
    EventsReachWanted(cfg, Foreign(remote), events);
    assert forall s: set<string> :: s - {} == s;
  }

  /** The remote lists, compared as normalised sets, are exactly the wanted ones. */
  ghost predicate Meets(w: World, want: map<string, set<string>>) {
    w.remote.Keys == want.Keys && forall db | db in want :: NormSet(w.remote[db]) == want[db]
  }

  lemma MeetsWithoutFailures(w: World, want: map<string, set<string>>)
    requires Agrees(w, want) && forall db :: Failed(w.log, db) == {}
    ensures Meets(w, want)
  {
    hide NormSet, Failed;
    assert forall s: set<string> :: s - {} == s;
  }

  lemma MeetsOnlyOne(w: World, a: map<string, set<string>>, b: map<string, set<string>>)
    requires Meets(w, a)
    ensures Meets(w, b) <==> a == b
  {
    hide NormSet;
  }

  /** The condition is exact: from an agreeing world, a callback after which no operation has ever
      failed leaves the remote lists at the specification if and only if it holds. */
  lemma AgreementIff(o: Oracle, cfg: Config, w: World, foreign: map<string, set<string>>, store: Store, ev: Event)
    requires Validated(cfg) && OrdersFit(cfg, ev) && Follows(store, ev)
    requires Agrees(w, Wanted(cfg, foreign, store))
    requires forall db :: Failed(Callback(o, cfg, w, ev).log, db) == {}
    ensures Meets(Callback(o, cfg, w, ev), Wanted(cfg, foreign, After(store, ev))) <==> Keeps(cfg, foreign, store, ev)
  {
    hide Callback, Agrees, ApplyEvent, Wanted, Meets, Failed, Keeps, Follows, OrdersFit, After;
    var got := ApplyEvent(cfg, Wanted(cfg, foreign, store), ev);
    CallbackAgrees(o, cfg, w, Wanted(cfg, foreign, store), ev);
    KeepsIff(cfg, foreign, store, ev);
    MeetsWithoutFailures(Callback(o, cfg, w, ev), got);
    MeetsOnlyOne(Callback(o, cfg, w, ev), got, Wanted(cfg, foreign, After(store, ev)));
  }
}

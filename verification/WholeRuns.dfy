/** Agreement over whole runs is exact: what every prefix of a run needs, and conditions on the cluster
    that a reader can check to have it. */
module WholeRuns {
  import opened Config
  import opened AllowList
  import opened NodeWatch
  import opened Agreement
  import opened Reconcile
  import opened Invariants

  /** Every callback agrees with the store at its time. */
  ghost predicate FollowedThroughout(events: seq<Event>) {
    forall n: nat | n < |events| :: Follows(StoreAfter(events[..n]), events[n])
  }

  /** Every callback meets the condition of `Keeps` at its time. */
  ghost predicate KeepsThroughout(cfg: Config, foreign: map<string, set<string>>, events: seq<Event>) {
    forall n: nat | n < |events| :: Keeps(cfg, foreign, StoreAfter(events[..n]), events[n])
  }

  /** After each callback the remote lists meet the specification. */
  ghost predicate MeetsThroughout(o: Oracle, cfg: Config, remote: map<string, seq<string>>, order: seq<string>,
                                  events: seq<Event>) {
    forall n: nat | n <= |events| :: MeetsAfter(o, cfg, remote, order, events[..n])
  }

  ghost predicate MeetsAfter(o: Oracle, cfg: Config, remote: map<string, seq<string>>, order: seq<string>,
                             events: seq<Event>) {
    Meets(Controller(o, cfg, remote, order, events), Wanted(cfg, Foreign(remote), StoreAfter(events)))
  }

  // ---------- failures are never forgotten ----------

  lemma FailedGrows(log0: seq<Call>, log: seq<Call>, db: string)
    requires log0 <= log
    ensures Failed(log0, db) <= Failed(log, db)
  {
  }

  lemma RunExtendsLog(o: Oracle, cfg: Config, w: World, ev: Event)
    requires cfg.retry.maxAttempts > 0
    ensures w.log <= Callback(o, cfg, w, ev).log
  {
    var P := (v: World) => w.log <= v.log;
    assert Inductive(o, P, Anything) by {
      hide Edited, Modifies;
    }
    assert EventAllowed(cfg, ev, Anything);
    assert P(Callback(o, cfg, w, ev)) by {
      hide Inductive, Callback, EventAllowed;
      CallbackKeeps(o, cfg, P, Anything, w, ev);
    }
  }

  ghost predicate NothingFailed(w: World) {
    forall db :: Failed(w.log, db) == {}
  }

  lemma {:induction false} NothingFailedBefore(o: Oracle, cfg: Config, remote: map<string, seq<string>>,
                                               order: seq<string>, events: seq<Event>, n: nat)
    requires cfg.retry.maxAttempts > 0 && n <= |events|
    requires NothingFailed(Controller(o, cfg, remote, order, events))
    ensures NothingFailed(Controller(o, cfg, remote, order, events[..n]))
    decreases |events|
  {
    if n == |events| {
      assert events[..n] == events;
    } else {
      hide Failed, Initialize, Callback;
      var front, last := events[..|events| - 1], events[|events| - 1];
      var prior := Controller(o, cfg, remote, order, front);
      assert Controller(o, cfg, remote, order, events) == Callback(o, cfg, prior, last);
      RunExtendsLog(o, cfg, prior, last);
      forall db ensures Failed(prior.log, db) == {} {
        FailedGrows(prior.log, Callback(o, cfg, prior, last).log, db);
      }
      NothingFailedBefore(o, cfg, remote, order, front, n);
      assert front[..n] == events[..n];
    }
  }

  // ---------- exactness ----------

  /** Without failures a prefix meets the specification exactly when the edits asked for reach it. */
  lemma MeetsIffReached(o: Oracle, cfg: Config, remote: map<string, seq<string>>, order: seq<string>,
                        events: seq<Event>, n: nat)
    requires Validated(cfg) && AllOrdersFit(cfg, events) && n <= |events|
    requires NothingFailed(Controller(o, cfg, remote, order, events))
    ensures MeetsAfter(o, cfg, remote, order, events[..n]) <==>
      ApplyEvents(cfg, Foreign(remote), events[..n]) == Wanted(cfg, Foreign(remote), StoreAfter(events[..n]))
  {
    hide Controller, ApplyEvents, Wanted, Agrees, Meets, OrdersFit, Failed, Foreign;
    NothingFailedBefore(o, cfg, remote, order, events, n);
    ControllerAgrees(o, cfg, remote, order, events[..n]);
    var w, got := Controller(o, cfg, remote, order, events[..n]), ApplyEvents(cfg, Foreign(remote), events[..n]);
    MeetsWithoutFailures(w, got);
    MeetsOnlyOne(w, got, Wanted(cfg, Foreign(remote), StoreAfter(events[..n])));
  }

  lemma {:induction false} KeepsThroughoutOrderly(cfg: Config, foreign: map<string, set<string>>, events: seq<Event>)
    requires FollowedThroughout(events) && KeepsThroughout(cfg, foreign, events)
    ensures Orderly(cfg, foreign, events)
  {
    if events == [] {
    } else {
      hide Follows, Keeps, StoreAfter;
      var n: nat := |events| - 1;
      var front := events[..n];
      assert Follows(StoreAfter(events[..n]), events[n]) && Keeps(cfg, foreign, StoreAfter(events[..n]), events[n]);
      forall k: nat | k < |front|
        ensures Follows(StoreAfter(front[..k]), front[k]) && Keeps(cfg, foreign, StoreAfter(front[..k]), front[k])
      {
        assert front[..k] == events[..k] && front[k] == events[k];
      }
      KeepsThroughoutOrderly(cfg, foreign, front);
    }
  }

  lemma ThroughoutPrefix(cfg: Config, foreign: map<string, set<string>>, events: seq<Event>, n: nat)
    requires n <= |events| && FollowedThroughout(events) && KeepsThroughout(cfg, foreign, events)
    ensures FollowedThroughout(events[..n]) && KeepsThroughout(cfg, foreign, events[..n])
  {
    hide Follows, Keeps, StoreAfter;
    var front := events[..n];
    forall k: nat | k < n
      ensures Follows(StoreAfter(front[..k]), front[k]) && Keeps(cfg, foreign, StoreAfter(front[..k]), front[k])
    {
      assert front[..k] == events[..k] && front[k] == events[k];
    }
  }

  /** If the edits reach the specification before and after a callback, the callback meets the condition. */
  lemma ReachedTwiceKeeps(cfg: Config, foreign: map<string, set<string>>, events: seq<Event>, n: nat)
    requires n < |events| && Follows(StoreAfter(events[..n]), events[n])
    requires ApplyEvents(cfg, foreign, events[..n]) == Wanted(cfg, foreign, StoreAfter(events[..n]))
    requires ApplyEvents(cfg, foreign, events[..n + 1]) == Wanted(cfg, foreign, StoreAfter(events[..n + 1]))
    ensures Keeps(cfg, foreign, StoreAfter(events[..n]), events[n])
  {
    hide ApplyEvent, Wanted, Keeps, Follows, After;
    assert events[..n + 1][..n] == events[..n];
    KeepsIff(cfg, foreign, StoreAfter(events[..n]), events[n]);
  }

  /** Whole-run exactness: in a run of callbacks that agree with the informer's store, in which no operation
      fails, the remote lists meet the specification after every callback if and only if every callback
      meets the condition. */
  lemma RunAgreementIff(o: Oracle, cfg: Config, remote: map<string, seq<string>>, order: seq<string>,
                        events: seq<Event>)
    requires Validated(cfg) && AllOrdersFit(cfg, events) && FollowedThroughout(events)
    requires NothingFailed(Controller(o, cfg, remote, order, events))
    ensures MeetsThroughout(o, cfg, remote, order, events) <==> KeepsThroughout(cfg, Foreign(remote), events)
  {
    hide Validated, AllOrdersFit, NothingFailed, Controller, MeetsAfter, ApplyEvents, Wanted, Foreign, Follows, Keeps,
      Orderly;
    if MeetsThroughout(o, cfg, remote, order, events) {
      forall n: nat | n < |events| ensures Keeps(cfg, Foreign(remote), StoreAfter(events[..n]), events[n]) {
        MeetsIffReached(o, cfg, remote, order, events, n);
        MeetsIffReached(o, cfg, remote, order, events, n + 1);
        assert MeetsAfter(o, cfg, remote, order, events[..n]) && MeetsAfter(o, cfg, remote, order, events[..n + 1]);
        ReachedTwiceKeeps(cfg, Foreign(remote), events, n);
      }
    }
    if KeepsThroughout(cfg, Foreign(remote), events) {
      forall n: nat | n <= |events| ensures MeetsAfter(o, cfg, remote, order, events[..n]) {
        ThroughoutPrefix(cfg, Foreign(remote), events, n);
        KeepsThroughoutOrderly(cfg, Foreign(remote), events[..n]);
        EventsReachWanted(cfg, Foreign(remote), events[..n]);
        MeetsIffReached(o, cfg, remote, order, events, n);
      }
    }
  }

  // ---------- conditions on the cluster ----------

  /** On every database, entries of distinct live nodes are disjoint, and none is foreign. */
  ghost predicate Separate(cfg: Config, foreign: map<string, set<string>>, store: Store) {
    forall db | db in foreign ::
      && (forall n | n in store :: Holds(cfg, store[n], db) !! foreign[db])
      && (forall m, n | m in store && n in store && m != n :: Holds(cfg, store[m], db) !! Holds(cfg, store[n], db))
  }

  /** A node that stays in its pool keeps its selected IPs. */
  ghost predicate KeepsAddresses(cfg: Config, ev: Event) {
    ev.Updated? && IsWatched(cfg, ev.before) && IsWatched(cfg, ev.after)
      && LabelOf(cfg, ev.before) == LabelOf(cfg, ev.after)
    ==> NodeEntries(cfg, ev.before) == NodeEntries(cfg, ev.after)
  }

  lemma OthersSeparate(cfg: Config, foreign: map<string, set<string>>, store: Store, name: string, db: string)
    requires Separate(cfg, foreign, store) && db in foreign && name in store
    ensures Others(cfg, foreign, store, name, db) !! Holds(cfg, store[name], db)
  {
    hide Holds;
    forall e | e in Others(cfg, foreign, store, name, db) ensures e !in Holds(cfg, store[name], db) {
      if e !in foreign[db] {
        var n :| n in store - {name} && e in Holds(cfg, store[n], db);
        assert Holds(cfg, store[n], db) !! Holds(cfg, store[name], db);
      }
    }
  }

  /** Separate entries and stable addresses give every callback the condition it needs. */
  lemma SeparateEntriesKeep(cfg: Config, foreign: map<string, set<string>>, store: Store, ev: Event)
    requires Follows(store, ev) && Separate(cfg, foreign, store) && KeepsAddresses(cfg, ev)
    ensures Keeps(cfg, foreign, store, ev)
  {
    forall db | db in foreign ensures KeepsAt(cfg, foreign, store, ev, db) {
      if OldNode(ev).Some? {
        OthersSeparate(cfg, foreign, store, EventName(ev), db);
      }
      hide Others, NodeEntries, Separate, LabelOf;
      if !Removes(cfg, ev) && !Adds(cfg, ev) {
        assert HoldsIfAny(cfg, OldNode(ev), db) == HoldsIfAny(cfg, NewNode(ev), db);
      }
    }
  }
}

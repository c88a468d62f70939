/** The cache divergence bound in every state a run goes through: before and after each attempt of each
    retry loop, after each operation, and during the initialisation of the cache. */
module Attempts {
  import opened Base
  import opened Config
  import opened Addresses
  import opened AllowList
  import opened NodeWatch
  import opened UpdateProofs
  import opened Agreement
  import opened Reconcile
  import opened Invariants
  import Retry

  datatype Operation = Operation(db: string, ip: string)

  /** A state of a run, with the operation that is being attempted in it, if any. */
  datatype Point = Point(w: World, current: Option<Operation>)

  // ---------- the states of a run ----------

  ghost predicate UpdateDbVisits(o: Oracle, cfg: Config, w: World, db: string, ip: string, op: Op, p: Point) {
    || p == Point(UpdateDb(o, cfg, w, db, ip, op).w, None)
    || (Wait(o, w).err.None? && RetryVisits(o, cfg, Wait(o, w).w, db, ip, op, p))
  }

  /** The states between the attempts of the retry loop that starts in `w`. */
  ghost predicate RetryVisits(o: Oracle, cfg: Config, w: World, db: string, ip: string, op: Op, p: Point) {
    exists n: nat :: n <= |RetryUpdate(o, cfg, w, db, ip, op, o.pauses(|w.log|)).results| &&
      p == Point(Retry.Iterate(AttemptFn(o, db, ip, op), w, n), Some(Operation(db, ip)))
  }

  ghost predicate FanOutVisits(o: Oracle, cfg: Config, w: World, databases: seq<Database>, ip: string, op: Op,
                               p: Point)
  {
    databases != [] &&
    var front, last := databases[..|databases| - 1], databases[|databases| - 1];
    || FanOutVisits(o, cfg, w, front, ip, op, p)
    || UpdateDbVisits(o, cfg, FanOut(o, cfg, w, front, ip, op).w, last.id, ip, op, p)
  }

  ghost predicate HandleIPsVisits(o: Oracle, cfg: Config, w: World, pool: string, ips: seq<string>, operation: string,
                                  p: Point)
  {
    ips != [] &&
    var front, last := ips[..|ips| - 1], ips[|ips| - 1];
    || HandleIPsVisits(o, cfg, w, pool, front, operation, p)
    || FanOutVisits(o, cfg, HandleIPs(o, cfg, w, pool, front, operation).w, DatabasesFor(cfg.nodepools, pool), last,
                    OpOf(operation), p)
  }

  /** The world of a callback between its removals and its additions. */
  ghost function Removed(o: Oracle, cfg: Config, w: World, ev: Event): World {
    if Removes(cfg, ev) then HandleNodeEvent(o, cfg, w, OldNode(ev).value, OldIPs(ev), "delete").w else w
  }

  ghost predicate CallbackVisits(o: Oracle, cfg: Config, w: World, ev: Event, p: Point) {
    || (Removes(cfg, ev) && HandleIPsVisits(o, cfg, w, LabelOf(cfg, OldNode(ev).value), OldIPs(ev), "delete", p))
    || (Adds(cfg, ev)
        && HandleIPsVisits(o, cfg, Removed(o, cfg, w, ev), LabelOf(cfg, NewNode(ev).value), NewIPs(ev), "add", p))
  }

  ghost predicate RunVisits(o: Oracle, cfg: Config, w: World, events: seq<Event>, p: Point) {
    events != [] &&
    var front, last := events[..|events| - 1], events[|events| - 1];
    || RunVisits(o, cfg, w, front, p)
    || CallbackVisits(o, cfg, Run(o, cfg, w, front), last, p)
  }

  /** The states of the controller: after each fetch of the initialisation, and those of the callbacks. */
  ghost predicate ControllerVisits(o: Oracle, cfg: Config, remote: map<string, seq<string>>, order: seq<string>,
                                   events: seq<Event>, p: Point) {
    var w0 := World(remote, map[], []);
    || (exists n: nat :: n <= |order| && p == Point(Initialize(o, w0, order[..n]).w, None))
    || RunVisits(o, cfg, Initialize(o, w0, order).w, events, p)
  }

  // ---------- the states of a run end where it ends ----------

  lemma FanOutEnd(o: Oracle, cfg: Config, w: World, databases: seq<Database>, ip: string, op: Op)
    ensures var end := FanOut(o, cfg, w, databases, ip, op).w;
      end == w || FanOutVisits(o, cfg, w, databases, ip, op, Point(end, None))
  {
    hide UpdateDb;
  }

  lemma {:induction false} HandleIPsEnd(o: Oracle, cfg: Config, w: World, pool: string, ips: seq<string>,
                                        operation: string)
    ensures var end := HandleIPs(o, cfg, w, pool, ips, operation).w;
      end == w || HandleIPsVisits(o, cfg, w, pool, ips, operation, Point(end, None))
  {
    hide FanOut, FanOutVisits, OpOf;
    if ips == [] {
    } else {
      var front := ips[..|ips| - 1];
      HandleIPsEnd(o, cfg, w, pool, front, operation);
      FanOutEnd(o, cfg, HandleIPs(o, cfg, w, pool, front, operation).w, DatabasesFor(cfg.nodepools, pool),
                ips[|ips| - 1], OpOf(operation));
    }
  }

  lemma CallbackEnd(o: Oracle, cfg: Config, w: World, ev: Event)
    ensures var end := Callback(o, cfg, w, ev);
      end == w || CallbackVisits(o, cfg, w, ev, Point(end, None))
  {
    hide HandleIPs, HandleIPsVisits, IsWatched;
    if Removes(cfg, ev) {
      HandleIPsEnd(o, cfg, w, LabelOf(cfg, OldNode(ev).value), OldIPs(ev), "delete");
    }
    if Adds(cfg, ev) {
      HandleIPsEnd(o, cfg, Removed(o, cfg, w, ev), LabelOf(cfg, NewNode(ev).value), NewIPs(ev), "add");
    }
  }

  /** The last state of a run is among the visited ones, unless the run changed nothing at all. */
  lemma {:induction false} RunEnd(o: Oracle, cfg: Config, w: World, events: seq<Event>)
    ensures var end := Run(o, cfg, w, events);
      end == w || RunVisits(o, cfg, w, events, Point(end, None))
  {
    hide Callback, CallbackVisits;
    if events == [] {
    } else {
      var front := events[..|events| - 1];
      RunEnd(o, cfg, w, front);
      CallbackEnd(o, cfg, Run(o, cfg, w, front), events[|events| - 1]);
    }
  }

  // ---------- the bound ----------

  /** The IPs on which cache and remote list of `d` may differ: those that had failed, and the current one. */
  ghost function Excepted(p: Point, d: string): set<string> {
    Failed(p.w.log, d) + (if p.current.Some? && p.current.value.db == d then {NormalizeIP(p.current.value.ip)} else {})
  }

  ghost predicate Bounded(p: Point) {
    forall d | d in p.w.cache ::
      d in p.w.remote && AgreeOff(NormSet(p.w.cache[d]), NormSet(p.w.remote[d]), Excepted(p, d))
  }

  lemma AgreesBounded(w: World, want: map<string, set<string>>)
    requires Agrees(w, want)
    ensures Bounded(Point(w, None))
  {
    hide NormSet, Failed;
    assert forall s: set<string> :: s + {} == s;
  }

  lemma WaitAgrees(o: Oracle, w: World, want: map<string, set<string>>)
    requires Agrees(w, want)
    ensures Agrees(Wait(o, w).w, want)
  {
    hide ListAgrees, Failed;
    forall d ensures Failed(Wait(o, w).w.log, d) == Failed(w.log, d) {
      FailedAppend(w.log, Wait(o, w).w.log[|w.log|], d);
    }
  }

  lemma PendingBounded(w: World, v: World, want: map<string, set<string>>, db: string, ip: string, op: Op)
    requires Agrees(w, want) && Pending(w, v, db, ip, op)
    ensures Bounded(Point(v, Some(Operation(db, ip))))
  {
    PendingDivergence(w, v, want, db, ip, op);
    hide NormSet, Failed, Edited, Modifies, Agrees, OthersUntouched;
    forall d ensures Failed(v.log, d) == Failed(w.log, d) {
      FailedLocal(w.log, v.log, db, Target(w, db, ip, op), d);
    }
  }

  lemma SettledBounded(w: World, v: World, want: map<string, set<string>>, db: string, ip: string, op: Op)
    requires Agrees(w, want) && Settled(w, v, db, ip, op)
    ensures Bounded(Point(v, Some(Operation(db, ip))))
  {
    hide NormSet, Failed, Edited, Modifies;
    forall d ensures Failed(v.log, d) == Failed(w.log, d) {
      FailedLocal(w.log, v.log, db, Target(w, db, ip, op), d);
    }
    var p := Point(v, Some(Operation(db, ip)));
    forall d | d in v.cache
      ensures d in v.remote && AgreeOff(NormSet(v.cache[d]), NormSet(v.remote[d]), Excepted(p, d))
    {
      var x := if d == db then {NormalizeIP(ip)} else {};
      assert forall s: set<string> :: s - (Failed(w.log, d) + x) == (s - Failed(w.log, d)) - x;
    }
  }

  lemma RetryBounded(o: Oracle, cfg: Config, w: World, want: map<string, set<string>>, db: string, ip: string, op: Op,
                     p: Point)
    requires cfg.retry.maxAttempts > 0 && Agrees(w, want) && RetryVisits(o, cfg, w, db, ip, op, p)
    ensures Bounded(p)
  {
    hide Attempt, Agrees, Bounded, Pending, Settled;
    var fn, env := AttemptFn(o, db, ip, op), o.pauses(|w.log|);
    var r := RetryUpdate(o, cfg, w, db, ip, op, env);
    Retry.Accounting(cfg.retry, fn, Retry.DefaultPolicy(), env, 0, w, None);
    var n: nat :| n <= |r.results| && p == Point(Retry.Iterate(fn, w, n), Some(Operation(db, ip)));
    if n == |r.results| && r.err.None? {
      RetryEffect(o, cfg, w, db, ip, op, env);
      SettledBounded(w, Retry.Iterate(fn, w, n), want, db, ip, op);
    } else {
      AttemptsPending(o, w, db, ip, op, n);
      PendingBounded(w, Retry.Iterate(fn, w, n), want, db, ip, op);
    }
  }

  lemma UpdateDbBounded(o: Oracle, cfg: Config, w: World, want: map<string, set<string>>, db: string, ip: string,
                        op: Op, p: Point)
    requires cfg.retry.maxAttempts > 0 && Agrees(w, want) && UpdateDbVisits(o, cfg, w, db, ip, op, p)
    ensures Bounded(p)
  {
    hide Agrees, Bounded, RetryVisits, UpdateDb, Wait, Effect, Apply;
    if p == Point(UpdateDb(o, cfg, w, db, ip, op).w, None) {
      UpdateDbEffect(o, cfg, w, db, ip, op);
      EffectAgrees(w, UpdateDb(o, cfg, w, db, ip, op), want, db, ip, op);
      AgreesBounded(p.w, Apply(want, {db}, {NormalizeIP(ip)}, op));
    } else {
      WaitAgrees(o, w, want);
      RetryBounded(o, cfg, Wait(o, w).w, want, db, ip, op, p);
    }
  }

  lemma {:induction false} FanOutBounded(o: Oracle, cfg: Config, w: World, want: map<string, set<string>>,
                                         databases: seq<Database>, ip: string, op: Op, p: Point)
    requires cfg.retry.maxAttempts > 0 && Agrees(w, want) && FanOutVisits(o, cfg, w, databases, ip, op, p)
    ensures Bounded(p)
  {
    hide Agrees, Bounded, UpdateDbVisits, FanOut, Apply;
    var front, last := databases[..|databases| - 1], databases[|databases| - 1];
    if FanOutVisits(o, cfg, w, front, ip, op, p) {
      FanOutBounded(o, cfg, w, want, front, ip, op, p);
    } else {
      FanOutAgrees(o, cfg, w, want, front, ip, op);
      UpdateDbBounded(o, cfg, FanOut(o, cfg, w, front, ip, op).w, Apply(want, Ids(front), {NormalizeIP(ip)}, op),
                      last.id, ip, op, p);
    }
  }

  lemma {:induction false} HandleIPsBounded(o: Oracle, cfg: Config, w: World, want: map<string, set<string>>,
                                            pool: string, ips: seq<string>, operation: string, p: Point)
    requires cfg.retry.maxAttempts > 0 && Agrees(w, want) && HandleIPsVisits(o, cfg, w, pool, ips, operation, p)
    ensures Bounded(p)
  {
    hide Agrees, Bounded, FanOutVisits, HandleIPs, Apply, OpOf;
    var front, last := ips[..|ips| - 1], ips[|ips| - 1];
    var databases, op := DatabasesFor(cfg.nodepools, pool), OpOf(operation);
    if HandleIPsVisits(o, cfg, w, pool, front, operation, p) {
      HandleIPsBounded(o, cfg, w, want, pool, front, operation, p);
    } else {
      HandleIPsAgrees(o, cfg, w, want, pool, front, operation);
      FanOutBounded(o, cfg, HandleIPs(o, cfg, w, pool, front, operation).w,
                    Apply(want, Ids(databases), NormSet(front), op),
                    databases, last, op, p);
    }
  }

  /** The wanted sets between the removals and the additions of a callback. */
  ghost function WantRemoved(cfg: Config, want: map<string, set<string>>, ev: Event): map<string, set<string>> {
    if Removes(cfg, ev) then ApplyNode(cfg, want, OldNode(ev).value, OpOf("delete")) else want
  }

  lemma RemovedAgrees(o: Oracle, cfg: Config, w: World, want: map<string, set<string>>, ev: Event)
    requires cfg.retry.maxAttempts > 0 && Agrees(w, want) && OrdersFit(cfg, ev)
    ensures Agrees(Removed(o, cfg, w, ev), WantRemoved(cfg, want, ev))
  {
    hide Agrees, HandleNodeEvent, IsOrder, ApplyNode, IsWatched, OpOf;
    if Removes(cfg, ev) {
      NodeEventAgrees(o, cfg, w, want, OldNode(ev).value, OldIPs(ev), "delete");
    }
  }

  lemma CallbackBounded(o: Oracle, cfg: Config, w: World, want: map<string, set<string>>, ev: Event, p: Point)
    requires cfg.retry.maxAttempts > 0 && Agrees(w, want) && OrdersFit(cfg, ev) && CallbackVisits(o, cfg, w, ev, p)
    ensures Bounded(p)
  {
    hide Agrees, Bounded, HandleIPsVisits, Removed, OrdersFit;
    if Removes(cfg, ev) && HandleIPsVisits(o, cfg, w, LabelOf(cfg, OldNode(ev).value), OldIPs(ev), "delete", p) {
      HandleIPsBounded(o, cfg, w, want, LabelOf(cfg, OldNode(ev).value), OldIPs(ev), "delete", p);
    } else {
      RemovedAgrees(o, cfg, w, want, ev);
      HandleIPsBounded(o, cfg, Removed(o, cfg, w, ev), WantRemoved(cfg, want, ev), LabelOf(cfg, NewNode(ev).value),
                       NewIPs(ev), "add", p);
    }
  }

  lemma {:induction false} RunBounded(o: Oracle, cfg: Config, w: World, want: map<string, set<string>>,
                                      events: seq<Event>, p: Point)
    requires cfg.retry.maxAttempts > 0 && Agrees(w, want) && AllOrdersFit(cfg, events)
      && RunVisits(o, cfg, w, events, p)
    ensures Bounded(p)
  {
    hide Agrees, Bounded, CallbackVisits, Run, ApplyEvents, OrdersFit;
    var front, last := events[..|events| - 1], events[|events| - 1];
    if RunVisits(o, cfg, w, front, p) {
      RunBounded(o, cfg, w, want, front, p);
    } else {
      RunAgrees(o, cfg, w, want, front);
      CallbackBounded(o, cfg, Run(o, cfg, w, front), ApplyEvents(cfg, want, front), last, p);
    }
  }

  /** In every state of every run, whatever fails and whichever failed PUTs take effect, a cached list and
      its remote list differ only on IPs that had an operation on that database return an error, and on
      the IP whose operation is being attempted there. */
  lemma EveryStateBounded(o: Oracle, cfg: Config, remote: map<string, seq<string>>, order: seq<string>,
                          events: seq<Event>, p: Point)
    requires Validated(cfg) && AllOrdersFit(cfg, events) && ControllerVisits(o, cfg, remote, order, events, p)
    ensures Bounded(p)
  {
    hide Agrees, Bounded, RunVisits, OrdersFit, Initialize;
    var w0 := World(remote, map[], []);
    FreshWorldAgrees(remote);
    if exists n: nat :: n <= |order| && p == Point(Initialize(o, w0, order[..n]).w, None) {
      var n: nat :| n <= |order| && p == Point(Initialize(o, w0, order[..n]).w, None);
      InitializeAgrees(o, w0, Foreign(remote), order[..n]);
      AgreesBounded(p.w, Foreign(remote));
    } else {
      InitializeAgrees(o, w0, Foreign(remote), order);
      RunBounded(o, cfg, Initialize(o, w0, order).w, Foreign(remote), events, p);
    }
  }
}

/** Concrete inputs for what the controller does not do: notice a node that changes its addresses inside
    one pool, spare an entry that someone else also needs, and mean removal by every nil removal. */
module Counterexamples {
  import opened Base
  import opened Config
  import opened Addresses
  import opened AllowList
  import opened NodeWatch
  import opened UpdateProofs
  import opened Agreement
  import opened Reconcile
  import Determinism
  import Ordering
  import Retry

  const CFG: Config :=
    Config([Nodepool("pool", [Database("1", "db")])], Retry.RetryConfig(1, 0, 0), "label", true, false)

  lemma ConfigurationIsValid()
    ensures Validated(CFG)
  {
  }

  function NodeAt(name: string, ip: string): Node {
    Node(name, map["label" := "pool"], [Address(ExternalIP, ip)])
  }

  lemma EntriesAt(name: string, ip: string)
    requires ':' !in ip
    ensures IsWatched(CFG, NodeAt(name, ip)) && LabelOf(CFG, NodeAt(name, ip)) == "pool"
    ensures NodeDatabases(CFG, NodeAt(name, ip)) == {"1"} && NodeEntries(CFG, NodeAt(name, ip)) == {NormalizeIP(ip)}
    ensures Selected(CFG, NodeAt(name, ip)) == {ip}
  {
    var node := NodeAt(name, ip);
    assert CFG.nodepools[0].name == "pool";
    assert DatabasesFor(CFG.nodepools, "pool") == [Database("1", "db")];
    assert Ids([Database("1", "db")]) == {"1"};
    assert node.addresses[0] in node.addresses && IsWanted(CFG, node.addresses[0]);
  }

  // ---------- a changed address in an unchanged pool ----------

  /** A node that trades its only address for another inside its pool. */
  function AddressChange(a: string, b: string): Event {
    Updated(NodeAt("node", a), NodeAt("node", b), [a], [b])
  }

  lemma AddressChangeBreaks(a: string, b: string)
    requires ':' !in a && ':' !in b && NormalizeIP(a) != NormalizeIP(b)
    ensures Follows(map["node" := NodeAt("node", a)], AddressChange(a, b))
    ensures !Keeps(CFG, map["1" := {}], map["node" := NodeAt("node", a)], AddressChange(a, b))
  {
    EntriesAt("node", a);
    EntriesAt("node", b);
    hide IsWatched, LabelOf, NodeDatabases, NodeEntries;
    var foreign: map<string, set<string>> := map["1" := {}];
    var store, ev := map["node" := NodeAt("node", a)], AddressChange(a, b);
    assert store - {"node"} == map[];
    assert Others(CFG, foreign, store, "node", "1") == {};
    assert HoldsIfAny(CFG, OldNode(ev), "1") == {NormalizeIP(a)};
    assert HoldsIfAny(CFG, NewNode(ev), "1") == {NormalizeIP(b)};
    assert !KeepsAt(CFG, foreign, store, ev, "1") by {
      assert NormalizeIP(a) in {NormalizeIP(a)} - {} && NormalizeIP(a) !in {NormalizeIP(b)} - {};
    }
  }

  /** The callback does nothing, in any environment, so a world that met the specification before misses
      it after. */
  lemma AddressChangeGoesUnnoticed(o: Oracle, w: World, a: string, b: string)
    requires ':' !in a && ':' !in b && NormalizeIP(a) != NormalizeIP(b)
    ensures var store, ev := map["node" := NodeAt("node", a)], AddressChange(a, b);
      && Follows(store, ev)
      && Callback(o, CFG, w, ev) == w
      && (Meets(w, Wanted(CFG, map["1" := {}], store)) ==>
            !Meets(Callback(o, CFG, w, ev), Wanted(CFG, map["1" := {}], After(store, ev))))
  {
    var foreign: map<string, set<string>> := map["1" := {}];
    var store, ev := map["node" := NodeAt("node", a)], AddressChange(a, b);
    EntriesAt("node", a);
    EntriesAt("node", b);
    AddressChangeBreaks(a, b);
    assert ApplyEvent(CFG, Wanted(CFG, foreign, store), ev) == Wanted(CFG, foreign, store) by {
      hide IsWatched, LabelOf, Wanted;
    }
    hide IsWatched, LabelOf, ApplyEvent, Wanted, Keeps, Follows, After, Meets;
    KeepsIff(CFG, foreign, store, ev);
    if Meets(w, Wanted(CFG, foreign, store)) {
      MeetsOnlyOne(w, Wanted(CFG, foreign, store), Wanted(CFG, foreign, After(store, ev)));
    }
  }

  // ---------- a deletion that takes what others need ----------

  /** Deleting the node while its entry is also foreign, or also that of a live twin, breaks agreement. */
  lemma DeletionBreaks(a: string, foreign: map<string, set<string>>, store: Store)
    requires ':' !in a
    requires || (foreign == map["1" := {NormalizeIP(a)}] && store == map["node" := NodeAt("node", a)])
             || (foreign == map["1" := {}] && store == map["node" := NodeAt("node", a), "twin" := NodeAt("twin", a)])
    ensures Follows(store, Deleted(NodeAt("node", a), [a]))
    ensures !Keeps(CFG, foreign, store, Deleted(NodeAt("node", a), [a]))
    ensures NormalizeIP(a) in Wanted(CFG, foreign, After(store, Deleted(NodeAt("node", a), [a])))["1"]
  {
    EntriesAt("node", a);
    EntriesAt("twin", a);
    hide IsWatched, LabelOf, NodeDatabases, NodeEntries;
    var ev, rest := Deleted(NodeAt("node", a), [a]), store - {"node"};
    assert "node" in store && "1" in foreign;
    if foreign["1"] == {} {
      assert "twin" != "node" by { assert "twin"[0] != "node"[0]; }
      assert "twin" in rest && NormalizeIP(a) in Holds(CFG, rest["twin"], "1");
    }
    assert NormalizeIP(a) in Others(CFG, foreign, store, "node", "1");
    assert NormalizeIP(a) in HoldsIfAny(CFG, OldNode(ev), "1") && HoldsIfAny(CFG, NewNode(ev), "1") == {};
    assert !KeepsAt(CFG, foreign, store, ev, "1") by {
      assert NormalizeIP(a) in Others(CFG, foreign, store, "node", "1") * HoldsIfAny(CFG, OldNode(ev), "1");
    }
  }

  /** A successful deletion of the node empties a coherent list that held only its entry, although by
      `DeletionBreaks` the foreign owner or the twin still needs it there. */
  lemma DeletionTakesNeededEntry(o: Oracle, w: World, a: string)
    requires ':' !in a
    requires "1" in w.remote && Determinism.CoherentAt(w, "1") && NormSet(w.remote["1"]) == {NormalizeIP(a)}
    requires HandleNodeEvent(o, CFG, w, NodeAt("node", a), [a], "delete").err.None?
    ensures var w' := Callback(o, CFG, w, Deleted(NodeAt("node", a), [a]));
      "1" in w'.remote && NormSet(w'.remote["1"]) == {}
  {
    hide HandleNodeEvent, IsOrder, IsWatched, LabelOf, NormSet, Basis, OpOf, NodeDatabases, NodeEntries, Selected,
      NodeAt, Determinism.CoherentAt;
    var node := NodeAt("node", a);
    EntriesAt("node", a);
    OneIPOrder("node", a);
    Determinism.NodeEventRefinesIff(o, CFG, w, node, [a], "delete", "1");
    assert Edit({NormalizeIP(a)}, {NormalizeIP(a)}, Remove) == {};
  }

  lemma OneIPOrder(name: string, ip: string)
    requires ':' !in ip
    ensures IsOrder(CFG, NodeAt(name, ip), [ip]) && OpOf("delete") == Remove
  {
    EntriesAt(name, ip);
    hide Selected;
    assert Ordering.Elements([ip]) == {ip};
  }

  // ---------- an ambiguous PUT ----------

  /** Every call succeeds but the first PUT, which takes effect and reports an error. */
  function AmbiguousPut(): Oracle {
    var calm: Retry.Pause := Retry.RawPause.Pause(false, false, 0.0, 0);
    Oracle((n: nat) => true, (n: nat) => Reply(n != 3, true, 500), (n: nat) => (k: nat) => calm)
  }

  function EmptyList(): World {
    World(map["1" := []], map[], [])
  }

  lemma OneAttempt(o: Oracle, w: World, db: string, ip: string, op: Op, env: nat -> Retry.Pause)
    ensures var a := Attempt(o, w, db, ip, op);
      var r := RetryUpdate(o, CFG, w, db, ip, op, env);
      r.state == a.w && (r.err.None? <==> a.err.None?)
  {
    hide Attempt;
    Retry.Accounting(CFG.retry, AttemptFn(o, db, ip, op), Retry.DefaultPolicy(), env, 0, w, None);
    var r := RetryUpdate(o, CFG, w, db, ip, op, env);
    assert Retry.Iterate(AttemptFn(o, db, ip, op), w, 0) == w;
    assert r.state == Retry.Iterate(AttemptFn(o, db, ip, op), Attempt(o, w, db, ip, op).w, 0);
  }

  lemma OneAttemptUpdate(o: Oracle, w: World, db: string, ip: string, op: Op)
    requires Wait(o, w).err.None?
    ensures var a, s := Attempt(o, Wait(o, w).w, db, ip, op), UpdateDb(o, CFG, w, db, ip, op);
      && s.w.remote == a.w.remote && s.w.cache == a.w.cache && |s.w.log| == |a.w.log| + 1
      && (s.err.None? <==> a.err.None?)
  {
    hide Attempt, RetryUpdate, Wait;
    var waited := Wait(o, w).w;
    OneAttempt(o, waited, db, ip, op, o.pauses(|waited.log|));
  }

  lemma AmbiguousAttempt(ip: string, w: World)
    requires |w.log| == 1 && w.remote == map["1" := []] && w.cache == map[]
    ensures var a := Attempt(AmbiguousPut(), w, "1", ip, Add);
      && a.err.Some? && |a.w.log| == 4
      && a.w.remote == map["1" := Edited([], ip, Add)] && a.w.cache == map["1" := []]
  {
    hide Edited, NormalizeIP;
    assert NormSet([]) == {};
    var loaded := Load(AmbiguousPut(), w, "1");
    assert loaded.err.None? && loaded.w.cache == map["1" := []] && |loaded.w.log| == 3;
  }

  /** The world after the ambiguous addition: the entry is in the remote list and not in the cache. */
  lemma AmbiguousAddition(ip: string)
    ensures var s := UpdateDb(AmbiguousPut(), CFG, EmptyList(), "1", ip, Add);
      && s.err.Some? && |s.w.log| == 5
      && s.w.remote == map["1" := Edited([], ip, Add)] && s.w.cache == map["1" := []]
  {
    hide UpdateDb, Attempt, Edited;
    OneAttemptUpdate(AmbiguousPut(), EmptyList(), "1", ip, Add);
    AmbiguousAttempt(ip, Wait(AmbiguousPut(), EmptyList()).w);
  }

  /** Adding an IP with an ambiguous PUT and then removing it: the removal returns nil, having found
      nothing to remove in the cache, and the entry stays in the remote list. */
  lemma NilRemovalLeavesEntry(ip: string)
    ensures var added := UpdateDb(AmbiguousPut(), CFG, EmptyList(), "1", ip, Add);
      var removed := UpdateDb(AmbiguousPut(), CFG, added.w, "1", ip, Remove);
      && added.err.Some?
      && removed.err.None?
      && "1" in removed.w.remote && NormalizeIP(ip) in NormSet(removed.w.remote["1"])
  {
    AmbiguousAddition(ip);
    hide UpdateDb, Edited;
    var w := UpdateDb(AmbiguousPut(), CFG, EmptyList(), "1", ip, Add).w;
    OneAttemptUpdate(AmbiguousPut(), w, "1", ip, Remove);
    assert NormSet([]) == {};
    EditedSet([], ip, Add);
    assert NormalizeIP(ip) in Edit({}, {NormalizeIP(ip)}, Add);
  }
}

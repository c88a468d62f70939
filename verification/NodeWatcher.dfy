/** The watcher object: node selection, handleNodeEvent and the informer callbacks, as methods on
    the allow-list client, proved against the functions of `NodeWatch`. */
module NodeWatcher {
  import opened Base
  import opened Config
  import opened Ordering
  import opened AllowList
  import opened NodeWatch
  import opened LinodeClient

  class Watcher {
    const linode: Client
    const config: Config := linode.config

    constructor (linode: Client)
      ensures this.linode == linode
    {
      this.linode := linode;
    }

    method IsNodeInWatchedNodepool(node: Node) returns (watched: bool)
      ensures watched == IsWatched(config, node)
      ensures watched <==>
        && config.nodepoolLabelKey in node.labels && node.labels[config.nodepoolLabelKey] != ""
        && exists p | p in config.nodepools :: p.name == node.labels[config.nodepoolLabelKey]
    {
      var pool := LabelOf(config, node);
      if pool == "" {
        return false;
      }
      for i := 0 to |config.nodepools|
        invariant forall k | 0 <= k < i :: config.nodepools[k].name != pool
      {
        if config.nodepools[i].name == pool {
          return true;
        }
      }
      return false;
    }

    method GetExternalIPs(node: Node) returns (ips: seq<string>, err: Option<Error>)
      ensures IsOrder(config, node, ips)
      ensures forall ip :: ip in ips <==>
        exists a | a in node.addresses :: a.kind == ExternalIP && a.text == ip
          && if ':' in ip then config.enableIPv6 else config.enableIPv4
      ensures forall i, j | 0 <= i < j < |ips| :: ':' in ips[i] ==> ':' in ips[j]
      ensures err == if ips == [] then Some(NoAddresses(node.name)) else None
    {
      var ipv4Addresses, ipv6Addresses: map<string, bool> := map[], map[];
      for i := 0 to |node.addresses|
        invariant forall ip :: ip in ipv4Addresses <==>
          exists k | 0 <= k < i :: IsWanted(config, node.addresses[k]) && node.addresses[k].text == ip && !IsIPv6(ip)
        invariant forall ip :: ip in ipv6Addresses <==>
          exists k | 0 <= k < i :: IsWanted(config, node.addresses[k]) && node.addresses[k].text == ip && IsIPv6(ip)
      {
        var address := node.addresses[i];
        if address.kind.ExternalIP? {
          var isIPv6 := IsIPv6(address.text);
          if isIPv6 && config.enableIPv6 {
            ipv6Addresses := ipv6Addresses[address.text := true];
          } else if !isIPv6 && config.enableIPv4 {
            ipv4Addresses := ipv4Addresses[address.text := true];
          }
        }
      }
      assert ipv4Addresses.Keys + ipv6Addresses.Keys == Selected(config, node);
      ips := AppendKeys([], ipv4Addresses);
      ghost var v4 := |ips|;
      ips := AppendKeys(ips, ipv6Addresses);
      assert forall k | 0 <= k < v4 :: ips[k] in Elements(ips[..v4]);
      assert forall k | v4 <= k < |ips| :: ips[k] in Elements(ips[v4..]);
      SelectionByFields(config, node, ips);
      if |ips| == 0 {
        return ips, Some(NoAddresses(node.name));
      }
      return ips, None;
    }

    method HandleNodeEvent(node: Node, eventType: string) returns (lastErr: Option<Error>, ghost order: seq<string>)
      modifies linode`allowListCache, linode.api
      ensures IsOrder(config, node, order)
      ensures Step(linode.State(), lastErr) ==
        NodeWatch.HandleNodeEvent(linode.api.oracle, linode.config, old(linode.State()), node, order, eventType)
    {
      hide IsOrder;
      var pool := LabelOf(config, node);
      var ips, err := GetExternalIPs(node);
      order := ips;
      if err.Some? {
        return err, order;
      }
      lastErr := None;
      for i := 0 to |ips|
        invariant Step(linode.State(), lastErr) ==
          HandleIPs(linode.api.oracle, linode.config, old(linode.State()), pool, ips[..i], eventType)
      {
        assert ips[..i + 1][..i] == ips[..i];
        var ipErr := linode.UpdateAllowList(pool, ips[i], eventType);
        if ipErr.Some? {
          lastErr := ipErr;
        }
      }
      assert ips[..|ips|] == ips;
    }

    /** The callbacks return the event they handled, with the orders the map iterations chose. */
    method AddFunc(node: Node) returns (ghost ev: Event)
      modifies linode`allowListCache, linode.api
      ensures ev.Added? && ev.node == node && OrdersFit(config, ev)
      ensures linode.State() == Callback(linode.api.oracle, linode.config, old(linode.State()), ev)
    {
      hide IsOrder, NodeWatch.HandleNodeEvent, IsWatched;
      ghost var ips := AnyOrder(config, node);
      var watched := IsNodeInWatchedNodepool(node);
      if watched {
        var _, order := HandleNodeEvent(node, "add");
        ips := order;
      }
      ev := Added(node, ips);
    }

    method UpdateFunc(before: Node, after: Node) returns (ghost ev: Event)
      modifies linode`allowListCache, linode.api
      ensures ev.Updated? && ev.before == before && ev.after == after && OrdersFit(config, ev)
      ensures linode.State() == Callback(linode.api.oracle, linode.config, old(linode.State()), ev)
    {
      hide IsOrder, NodeWatch.HandleNodeEvent, IsWatched;
      ghost var beforeIPs, afterIPs := AnyOrder(config, before), AnyOrder(config, after);
      var oldNodepool, newNodepool := LabelOf(config, before), LabelOf(config, after);
      var oldIsWatched := IsNodeInWatchedNodepool(before);
      var newIsWatched := IsNodeInWatchedNodepool(after);
      if !oldIsWatched && newIsWatched {
        var _, order := HandleNodeEvent(after, "add");
        afterIPs := order;
      } else if oldIsWatched && !newIsWatched {
        var _, order := HandleNodeEvent(before, "delete");
        beforeIPs := order;
      } else if oldIsWatched && newIsWatched && oldNodepool != newNodepool {
        var _, order := HandleNodeEvent(before, "delete");
        beforeIPs := order;
        var _, order' := HandleNodeEvent(after, "add");
        afterIPs := order';
      }
      ev := Updated(before, after, beforeIPs, afterIPs);
    }

    method DeleteFunc(node: Node) returns (ghost ev: Event)
      modifies linode`allowListCache, linode.api
      ensures ev.Deleted? && ev.node == node && OrdersFit(config, ev)
      ensures linode.State() == Callback(linode.api.oracle, linode.config, old(linode.State()), ev)
    {
      hide IsOrder, NodeWatch.HandleNodeEvent, IsWatched;
      ghost var ips := AnyOrder(config, node);
      var watched := IsNodeInWatchedNodepool(node);
      if watched {
        var _, order := HandleNodeEvent(node, "delete");
        ips := order;
      }
      ev := Deleted(node, ips);
    }
  }

  /** Some order always exists: the selected IPv4 addresses and then the IPv6 ones. */
  ghost function AnyOrder(cfg: Config, node: Node): (ips: seq<string>)
    ensures IsOrder(cfg, node, ips)
  {
    var v4 := SortedList(set ip | ip in Selected(cfg, node) && !IsIPv6(ip));
    var v6 := SortedList(set ip | ip in Selected(cfg, node) && IsIPv6(ip));
    OrderByFamily(cfg, node, v4, v6);
    v4 + v6
  }

  lemma OrderByFamily(cfg: Config, node: Node, v4: seq<string>, v6: seq<string>)
    requires StrictlySorted(v4) && StrictlySorted(v6)
    requires Elements(v4) == set ip | ip in Selected(cfg, node) && !IsIPv6(ip)
    requires Elements(v6) == set ip | ip in Selected(cfg, node) && IsIPv6(ip)
    ensures IsOrder(cfg, node, v4 + v6)
  {
    SortedHasNoDuplicates(v4);
    SortedHasNoDuplicates(v6);
    ElementsConcat(v4, v6);
    assert Elements(v4 + v6) == Selected(cfg, node);
    assert forall k | 0 <= k < |v4| :: v4[k] in Elements(v4);
    assert forall k | 0 <= k < |v6| :: v6[k] in Elements(v6);
  }

  /** Appends the keys of a map in iteration order. */
  method AppendKeys(list: seq<string>, keys: map<string, bool>) returns (result: seq<string>)
    requires NoDuplicates(list) && Elements(list) !! keys.Keys
    ensures NoDuplicates(result) && list <= result
    ensures Elements(result[|list|..]) == keys.Keys && Elements(result) == Elements(list) + keys.Keys
  {
    result := list;
    var rest := keys.Keys;
    while rest != {}
      invariant rest <= keys.Keys && list <= result
      invariant Elements(result[|list|..]) == keys.Keys - rest
      invariant Elements(result) == Elements(list) + (keys.Keys - rest)
      invariant NoDuplicates(result)
    {
      var key :| key in rest;
      rest := rest - {key};
      AppendFresh(result, key);
      assert (result + [key])[|list|..] == result[|list|..] + [key];
      ElementsConcat(result[|list|..], [key]);
      result := result + [key];
    }
  }
}

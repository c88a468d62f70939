/** From informer events to allow-list operations: the callbacks of pkg/kubernetes/client.go and
    handleNodeEvent of cmd/nodewatcher/main.go, as functions on the world. */
module NodeWatch {
  import opened Base
  import opened Config
  import opened Ordering
  import opened AllowList

  datatype AddressType = ExternalIP | InternalIP | Hostname

  datatype Address = Address(kind: AddressType, text: string)

  datatype Node = Node(name: string, labels: map<string, string>, addresses: seq<Address>)

  /** The nodepool label of a node, "" when it has none. */
  function LabelOf(cfg: Config, node: Node): string {
    if cfg.nodepoolLabelKey in node.labels then node.labels[cfg.nodepoolLabelKey] else ""
  }

  predicate IsWatched(cfg: Config, node: Node) {
    LabelOf(cfg, node) != "" && IsConfigured(cfg.nodepools, LabelOf(cfg, node))
  }

  predicate IsIPv6(ip: string) {
    ':' in ip
  }

  predicate IsWanted(cfg: Config, a: Address) {
    a.kind.ExternalIP? && if IsIPv6(a.text) then cfg.enableIPv6 else cfg.enableIPv4
  }

  /** The external addresses of the enabled families. */
  ghost function Selected(cfg: Config, node: Node): set<string> {
    set a | a in node.addresses && IsWanted(cfg, a) :: a.text
  }

  /** What GetExternalIPs may return: each selected address once, IPv4 before IPv6, in any order within a family. */
  ghost predicate IsOrder(cfg: Config, node: Node, ips: seq<string>) {
    && NoDuplicates(ips)
    && Elements(ips) == Selected(cfg, node)
    && (forall i, j | 0 <= i < j < |ips| :: IsIPv6(ips[i]) ==> IsIPv6(ips[j]))
  }

  /** In terms of the fields of the node: external addresses, each by the switch of its own family. */
  lemma SelectionByFields(cfg: Config, node: Node, ips: seq<string>)
    requires IsOrder(cfg, node, ips)
    ensures forall ip :: ip in ips <==>
      exists a | a in node.addresses :: a.kind == ExternalIP && a.text == ip
        && if ':' in ip then cfg.enableIPv6 else cfg.enableIPv4
    ensures forall i, j | 0 <= i < j < |ips| :: ':' in ips[i] ==> ':' in ips[j]
  {
    assert forall ip :: ip in ips <==> ip in Elements(ips);
    assert forall a :: IsWanted(cfg, a) <==>
      a.kind == ExternalIP && if ':' in a.text then cfg.enableIPv6 else cfg.enableIPv4;
    forall i, j | 0 <= i < j < |ips| ensures ':' in ips[i] ==> ':' in ips[j] {
      assert IsIPv6(ips[i]) ==> IsIPv6(ips[j]);
    }
  }

  /** The loop of handleNodeEvent: every address, whatever fails; the last error wins. */
  ghost function HandleIPs(o: Oracle, cfg: Config, w: World, pool: string, ips: seq<string>, operation: string): Step {
    if ips == [] then Step(w, None)
    else
      var prior := HandleIPs(o, cfg, w, pool, ips[..|ips| - 1], operation);
      var r := UpdateAllowList(o, cfg, prior.w, pool, ips[|ips| - 1], operation);
      Step(r.w, if r.err.Some? then r.err else prior.err)
  }

  ghost function HandleNodeEvent(o: Oracle, cfg: Config, w: World, node: Node, ips: seq<string>,
                                 operation: string): Step
  {
    if ips == [] then Step(w, Some(NoAddresses(node.name)))
    else HandleIPs(o, cfg, w, LabelOf(cfg, node), ips, operation)
  }

  /** An informer callback together with the orders in which the addresses of its nodes come out. */
  datatype Event =
    | Added(node: Node, ips: seq<string>)
    | Updated(before: Node, after: Node, beforeIPs: seq<string>, afterIPs: seq<string>)
    | Deleted(node: Node, ips: seq<string>)

  ghost predicate OrdersFit(cfg: Config, ev: Event) {
    match ev
    case Added(node, ips) => IsOrder(cfg, node, ips)
    case Deleted(node, ips) => IsOrder(cfg, node, ips)
    case Updated(before, after, beforeIPs, afterIPs) => IsOrder(cfg, before, beforeIPs) && IsOrder(cfg, after, afterIPs)
  }

  /** AddFunc, UpdateFunc and DeleteFunc; errors of the handlers are only logged. */
  ghost function Callback(o: Oracle, cfg: Config, w: World, ev: Event): World {
    match ev
    case Added(node, ips) =>
      if IsWatched(cfg, node) then HandleNodeEvent(o, cfg, w, node, ips, "add").w else w
    case Updated(before, after, beforeIPs, afterIPs) =>
      var wasWatched, isWatched := IsWatched(cfg, before), IsWatched(cfg, after);
      if !wasWatched && isWatched then
        HandleNodeEvent(o, cfg, w, after, afterIPs, "add").w
      else if wasWatched && !isWatched then
        HandleNodeEvent(o, cfg, w, before, beforeIPs, "delete").w
      else if wasWatched && isWatched && LabelOf(cfg, before) != LabelOf(cfg, after) then
        var removed := HandleNodeEvent(o, cfg, w, before, beforeIPs, "delete").w;
        HandleNodeEvent(o, cfg, removed, after, afterIPs, "add").w
      else w
    case Deleted(node, ips) =>
      if IsWatched(cfg, node) then HandleNodeEvent(o, cfg, w, node, ips, "delete").w else w
  }

  /** The world after a list of callbacks, one at a time. */
  ghost function Run(o: Oracle, cfg: Config, w: World, events: seq<Event>): World {
    if events == [] then w
    else Callback(o, cfg, Run(o, cfg, w, events[..|events| - 1]), events[|events| - 1])
  }

  /** The controller: an empty cache is initialised once, then callbacks arrive. */
  ghost function Controller(o: Oracle, cfg: Config, remote: map<string, seq<string>>, order: seq<string>,
                            events: seq<Event>): World
  {
    Run(o, cfg, Initialize(o, World(remote, map[], []), order).w, events)
  }
}

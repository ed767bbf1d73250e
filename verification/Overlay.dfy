/** From the nodes' own state to the whole network: after a round of routing packets the network is at
    rest, and with the seed's consent it delivers. */
module Overlay {
  import opened NodeIds
  import opened Ring
  import opened RouteTables
  import opened Routing1D
  import opened Delivery
  import opened Reconcile

  /** One node's routing state as values, with the nodes registered at the seed when it last answered. */
  datatype NodeState = NodeState(infos: map<Id, Info>, tables: Tables, matched: bool, asked: Option<set<Id>>)

  type Nodes = map<Id, NodeState>

  /** The tables agree with the infos and the flag with the seed's last answer, as every operation of a
      node keeps them. */
  ghost predicate Consistent(nodes: Nodes, v: Id) {
    && v in nodes && TablesFor(v, InfoView(nodes[v].infos), nodes[v].tables)
    && Flagged(v, nodes[v].tables.front, nodes[v].tables.back, nodes[v].matched, nodes[v].asked)
  }

  /** `v` has received the current routing packet of each of its neighbours, all of which exist. */
  ghost predicate Heard(nodes: Nodes, v: Id) {
    && v in nodes && nodes[v].infos.Keys <= nodes.Keys
    && forall f :: f in nodes[v].infos ==> nodes[v].infos[f].seconds == nodes[f].infos.Keys - {v}
  }

  ghost predicate Exchanged(nodes: Nodes) {
    forall v {:trigger Consistent(nodes, v)} {:trigger Heard(nodes, v)} ::
      v in nodes ==> Consistent(nodes, v) && Heard(nodes, v)
  }

  function NetworkOf(nodes: Nodes): Network {
    Network(map v | v in nodes :: nodes[v].infos.Keys, map v | v in nodes :: nodes[v].tables)
  }

  lemma HeardView(nodes: Nodes, v: Id)
    requires Heard(nodes, v)
    ensures var links := NetworkOf(nodes).links;
            links[v] <= links.Keys && ViewOf(links, v) == InfoView(nodes[v].infos)
  {}

  /** A network in which everyone has heard its neighbours is at rest. */
  lemma ExchangeRests(nodes: Nodes)
    requires Exchanged(nodes)
    ensures AtRest(NetworkOf(nodes))
  {
    hide TablesFor;
    var n := NetworkOf(nodes);
    forall v | v in n.links ensures NodeAtRest(n, v) && v !in n.links[v] {
      assert Consistent(nodes, v) && Heard(nodes, v);
      HeardView(nodes, v);
      NotOwnNeighbor(v, nodes[v].infos, nodes[v].tables);
    }
    assert Closed(n.links) by {
      forall v | v in n.links ensures n.links[v] <= n.links.Keys { HeardView(nodes, v); }
    }
  }

  lemma NotOwnNeighbor(v: Id, infos: map<Id, Info>, t: Tables)
    requires TablesFor(v, InfoView(infos), t)
    ensures v !in infos
  {
    assert v !in InfoView(infos);
  }

  /** The node's flag is set, its last call of the seed succeeded, and the seed knew all nodes then. */
  ghost predicate ToldMatched(nodes: Nodes, v: Id) {
    v in nodes && nodes[v].matched && nodes[v].asked == Some(nodes.Keys)
  }

  /** A failed call leaves a flag that says nothing about the present lists: with the nodes 0, 1 and 2
      registered, node 0 is told "matched" while it knows both others; losing node 1 while the seed does
      not answer it keeps the flag, which is not asked for again, although its lists do not match. */
  lemma StaleFlagMisleads()
    ensures NextLists(0, {1, 2}, [1], [2]) && Flagged(0, [1], [2], true, Some({0, 1, 2}))
    ensures NextLists(0, {2}, [2], [2]) && Flagged(0, [2], [2], true, None)
    ensures !Matched({0, 1, 2}, 0, Report([2], [2]))
  {
    hide Matched;
    assert RingOrder(0, {1, 2}, [1, 2]) && Ends([1, 2], [1], [2]);
    assert RingOrder(0, {2}, [2]) && Ends([2], [2], [2]);
    assert {1, 2} == {0, 1, 2} - {0};
    FullKnowledgeMatches({0, 1, 2}, 0, {1, 2}, [1], [2]);
    assert Report([2], [2]) == [2, 2];
    TwiceNeverMatches({0, 1, 2}, 0, 2);
  }

  /** End to end: consistent nodes that have heard their neighbours and been told "matched" by a seed
      that knows them all deliver every packet: near ones to the unique ring predecessor, explicit
      ones to the addressee exactly when it exists, in at most twice as many hops as there are nodes. */
  lemma OverlayDelivers(nodes: Nodes, v: Id, dst: Id)
    requires Exchanged(nodes) && v in nodes
    requires forall u {:trigger ToldMatched(nodes, u)} :: u in nodes ==> ToldMatched(nodes, u)
    ensures AtRest(NetworkOf(nodes))
    ensures var near := Deliver(NetworkOf(nodes), v, dst, false);
            near.Accepted? && near.hops <= 2 * |nodes| && IsNearest(nodes.Keys, dst, near.at)
    ensures var o := Deliver(NetworkOf(nodes), v, dst, true);
            o.hops <= 2 * |nodes| && (o.Accepted? <==> dst in nodes) && (o.Accepted? ==> o.at == dst)
  {
    hide AtRest, Deliver, Matched, IsNearest, TablesFor;
    var n := NetworkOf(nodes);
    ExchangeRests(nodes);
    assert n.links.Keys == nodes.Keys;
    assert |n.links| == |nodes|;
    forall u | u in n.links ensures NodeMatched(n, u) {
      assert Consistent(nodes, u) && ToldMatched(nodes, u);
    }
    MatchedNetworkDelivers(n, v, dst);
  }
}

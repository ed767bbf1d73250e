/** Greedy routing over a whole network with static tables: iterating getNextStep terminates and
    stops where it should (node/internal/network/routing/routing_1d.go). */
module Delivery {
  import opened Ring
  import opened RouteTables
  import opened Sets

  /** A network at rest: who is connected to whom, and every node's tables. */
  datatype Network = Network(links: map<Id, set<Id>>, tables: map<Id, Tables>)

  /** What node `v` has been told: each neighbour's own neighbours, without `v`. */
  function ViewOf(links: map<Id, set<Id>>, v: Id): View
    requires v in links
    requires links[v] <= links.Keys
  {
    map f | f in links[v] :: links[f] - {v}
  }

  /** Links lead to other nodes of the network. */
  ghost predicate Closed(links: map<Id, set<Id>>) {
    forall v :: v in links ==> v !in links[v] && links[v] <= links.Keys
  }

  ghost predicate NodeAtRest(n: Network, v: Id) {
    && v in n.links && v in n.tables && n.links[v] <= n.links.Keys
    && TablesFor(v, ViewOf(n.links, v), n.tables[v])
  }

  /** Every node has been told its neighbours' neighbours and its tables agree with that. */
  ghost predicate AtRest(n: Network) {
    && n.tables.Keys == n.links.Keys
    && Closed(n.links)
    && forall v {:trigger NodeAtRest(n, v)} :: v in n.links ==> NodeAtRest(n, v)
  }

  /** What `v` knows, itself included. */
  function Reach(n: Network, v: Id): set<Id>
    requires v in n.links && n.links[v] <= n.links.Keys
  {
    Known(ViewOf(n.links, v)) + {v}
  }

  ghost function Nearest(n: Network, v: Id, dst: Id): (x: Id)
    requires v in n.links && n.links[v] <= n.links.Keys
    ensures IsNearest(Reach(n, v), dst, x)
  {
    assert v in Reach(n, v);
    NearestExists(Reach(n, v), dst);
    var x :| IsNearest(Reach(n, v), dst, x);
    x
  }

  /** Nodes strictly closer to `dst` than anything `v` knows. */
  ghost function Closer(n: Network, v: Id, dst: Id): set<Id>
    requires v in n.links && n.links[v] <= n.links.Keys
  {
    set x | x in n.links && Cw(x, dst) < Cw(Nearest(n, v, dst), dst)
  }

  ghost function HopRank(n: Network, v: Id, dst: Id): (r: nat)
    requires v in n.links && n.links[v] <= n.links.Keys
    ensures r <= 2
  {
    var x := Nearest(n, v, dst);
    if x == v then 0 else if x in n.links[v] then 1 else 2
  }

  /** Termination measure: twice the number of nodes still to be beaten, plus how many hops away the
      best known node is. Clockwise distance of the current node is not one: the first hop may lie
      on the far side of the destination. */
  ghost function Measure(n: Network, v: Id, dst: Id): nat
    requires v in n.links && n.links[v] <= n.links.Keys
  {
    2 * |Closer(n, v, dst)| + HopRank(n, v, dst)
  }

  ghost function StepAt(n: Network, v: Id, dst: Id, isExplicit: bool): (s: Step)
    requires AtRest(n) && v in n.links
    ensures !s.Multicast?
  {
    hide NextStep, TablesFor;
    assert NodeAtRest(n, v);
    TablesAreUsable(v, ViewOf(n.links, v), n.tables[v]);
    StepShape(v, n.tables[v], dst, isExplicit);
    NextStep(v, n.tables[v], ToNode(dst), isExplicit)
  }

  lemma ReachInNetwork(n: Network, v: Id)
    requires Closed(n.links) && v in n.links
    ensures Reach(n, v) <= n.links.Keys
  {
    var view := ViewOf(n.links, v);
    forall x | x in Known(view) ensures x in n.links {
      KnownMember(view, x);
      if x !in view {
        var k :| k in view && x in view[k];
        assert n.links[k] <= n.links.Keys;
      }
    }
  }

  /** The first hop knows the node the packet was aimed at. */
  lemma HopKnowsTarget(n: Network, v: Id, x: Id, f: Id)
    requires Closed(n.links) && v in n.links
    requires x != v && FirstHop(ViewOf(n.links, v), x, f)
    ensures f in n.links[v] && f in n.links && x in Reach(n, f)
    ensures x == f || x in n.links[f]
    ensures x in n.links[v] ==> x == f
  {
    if x != f {
      assert x in ViewOf(n.links, f);
    }
  }

  /** Every hop goes to a node of the network and decreases the measure. */
  lemma HopDecreases(n: Network, v: Id, dst: Id, isExplicit: bool)
    requires AtRest(n) && v in n.links
    requires StepAt(n, v, dst, isExplicit).Forward?
    ensures var f := StepAt(n, v, dst, isExplicit).hop;
            f in n.links && Measure(n, f, dst) < Measure(n, v, dst)
  {
    hide NextStep, TablesFor, Measure, FirstHop;
    assert NodeAtRest(n, v);
    var f, x := StepAt(n, v, dst, isExplicit).hop, Nearest(n, v, dst);
    TablesAreUsable(v, ViewOf(n.links, v), n.tables[v]);
    ForwardTowardsNearest(v, ViewOf(n.links, v), n.tables[v], dst, isExplicit, x);
    MeasureDecreases(n, v, dst, f);
  }

  lemma MeasureDecreases(n: Network, v: Id, dst: Id, f: Id)
    requires Closed(n.links) && v in n.links
    requires Nearest(n, v, dst) != v && FirstHop(ViewOf(n.links, v), Nearest(n, v, dst), f)
    ensures f in n.links && Measure(n, f, dst) < Measure(n, v, dst)
  {
    hide FirstHop, Reach;
    var x := Nearest(n, v, dst);
    HopKnowsTarget(n, v, x, f);
    ReachInNetwork(n, f);
    var y := Nearest(n, f, dst);
    if y == x {
      assert Closer(n, f, dst) == Closer(n, v, dst);
    } else {
      assert Cw(y, dst) < Cw(x, dst);
      assert y in Closer(n, v, dst) && y !in Closer(n, f, dst);
      StrictSubsetCard(Closer(n, f, dst), Closer(n, v, dst), y);
    }
  }

  datatype Outcome = Accepted(at: Id, hops: nat) | Rejected(at: Id, hops: nat)

  /** The run of one packet from node `v`. */
  ghost function Deliver(n: Network, v: Id, dst: Id, isExplicit: bool): (o: Outcome)
    requires AtRest(n) && v in n.links
    ensures o.at in n.links && o.hops <= Measure(n, v, dst)
    ensures StepAt(n, o.at, dst, isExplicit) == if o.Accepted? then Accept else Drop
    decreases Measure(n, v, dst)
  {
    hide AtRest, Measure, StepAt;
    match StepAt(n, v, dst, isExplicit)
    case Accept => Accepted(v, 0)
    case Drop => Rejected(v, 0)
    case Forward(f) =>
      HopDecreases(n, v, dst, isExplicit);
      var o := Deliver(n, f, dst, isExplicit);
      o.(hops := o.hops + 1)
  }

  /** Termination and stopping point of a packet that accepts the nearest node: within twice as many
      hops as there are nodes it stops at a node that is alone or owns the arc holding `dst`. */
  lemma NearbyDelivery(n: Network, v: Id, dst: Id)
    requires AtRest(n) && v in n.links
    ensures var o := Deliver(n, v, dst, false);
            && o.Accepted? && o.hops <= 2 * |n.links|
            && var front := n.tables[o.at].front;
               n.links[o.at] == {} || (front != [] && Cw(o.at, dst) < Cw(o.at, front[0]))
  {
    hide Deliver, NextStep, TablesFor, Measure;
    var o := Deliver(n, v, dst, false);
    MeasureBound(n, v, dst);
    assert NodeAtRest(n, o.at);
    var view := ViewOf(n.links, o.at);
    TablesAreUsable(o.at, view, n.tables[o.at]);
    StepShape(o.at, n.tables[o.at], dst, false);
    AcceptedNearby(o.at, view, n.tables[o.at], dst);
    assert view.Keys == n.links[o.at];
  }

  lemma MeasureBound(n: Network, v: Id, dst: Id)
    requires AtRest(n) && v in n.links
    ensures Measure(n, v, dst) <= 2 * |n.links|
  {
    var x := Nearest(n, v, dst);
    ReachInNetwork(n, v);
    assert x in n.links.Keys && x !in Closer(n, v, dst);
    StrictSubsetCard(Closer(n, v, dst), n.links.Keys, x);
  }

  /** Every node's list heads are its ring neighbours among all nodes, if there are any. */
  ghost predicate TrueNeighbors(n: Network) {
    forall v {:trigger n.tables[v]} :: v in n.links && v in n.tables && n.links.Keys != {v} ==>
      && n.tables[v].front != [] && n.tables[v].back != []
      && IsSuccessor(v, n.links.Keys - {v}, n.tables[v].front[0])
      && IsPredecessor(v, n.links.Keys - {v}, n.tables[v].back[0])
  }

  /** With true ring neighbours everywhere the packet stops at the one ring predecessor of `dst`. */
  lemma NearbyDeliveryIsExact(n: Network, v: Id, dst: Id)
    requires AtRest(n) && TrueNeighbors(n) && v in n.links
    ensures Deliver(n, v, dst, false).Accepted?
    ensures IsNearest(n.links.Keys, dst, Deliver(n, v, dst, false).at)
    ensures forall x :: IsNearest(n.links.Keys, dst, x) ==> x == Deliver(n, v, dst, false).at
  {
    hide Deliver, StepAt, TablesFor, IsPredecessor, IsSuccessor, IsNearest;
    NearbyDelivery(n, v, dst);
    var a := Deliver(n, v, dst, false).at;
    assert NodeAtRest(n, a);
    var view := ViewOf(n.links, a);
    TablesAreUsable(a, view, n.tables[a]);
    assert view.Keys == n.links[a];
    if n.links.Keys == {a} {
      OnlyNodeIsNearest(a, dst);
    } else {
      OwnerIsNearest(n.links.Keys, a, n.tables[a].front[0], dst);
    }
    NearestUnique(n.links.Keys, dst, a);
  }

  lemma OnlyNodeIsNearest(a: Id, dst: Id)
    ensures IsNearest({a}, dst, a)
  {}

  lemma NearestUnique(nodes: set<Id>, dst: Id, a: Id)
    requires IsNearest(nodes, dst, a)
    ensures forall x :: IsNearest(nodes, dst, x) ==> x == a
  {}

  lemma OwnerIsNearest(nodes: set<Id>, a: Id, next: Id, dst: Id)
    requires a in nodes && IsSuccessor(a, nodes - {a}, next)
    requires Cw(a, dst) < Cw(a, next)
    ensures IsNearest(nodes, dst, a)
  {
    forall y | y in nodes ensures Cw(a, dst) <= Cw(y, dst) {
      if y != a { assert y in nodes - {a}; }
    }
  }

  /** An explicit packet is accepted exactly by its addressee, and exactly when the addressee exists;
      either way its run is as short as any other. */
  lemma ExplicitDelivery(n: Network, v: Id, dst: Id)
    requires AtRest(n) && TrueNeighbors(n) && v in n.links
    ensures var o := Deliver(n, v, dst, true);
            && o.hops <= 2 * |n.links|
            && (o.Accepted? <==> dst in n.links)
            && (o.Accepted? ==> o.at == dst)
  {
    hide Deliver, TablesFor, Measure, NextStep, IsSuccessor, IsPredecessor;
    MeasureBound(n, v, dst);
    var o := Deliver(n, v, dst, true);
    var t := n.tables[o.at];
    assert NodeAtRest(n, o.at);
    TablesAreUsable(o.at, ViewOf(n.links, o.at), t);
    StepShape(o.at, t, dst, true);
    if o.Rejected? && dst in n.links {
      assert n.links.Keys != {o.at};
      NoGapHoldsANode(n.links.Keys, o.at, t.front[0], t.back[0], dst);
    }
  }

  lemma NoGapHoldsANode(nodes: set<Id>, a: Id, next: Id, prev: Id, dst: Id)
    requires dst in nodes && dst != a && next != a && prev != a
    requires IsSuccessor(a, nodes - {a}, next) && IsPredecessor(a, nodes - {a}, prev)
    ensures !IsBetween(a, next, dst)
    ensures IsBetween(prev, a, dst) ==> dst == prev
  {
    assert dst in nodes - {a};
    BetweenIsArc(a, next, dst);
    BetweenIsArc(prev, a, dst);
  }

  /** Every topology has a network at rest, so the theorems above speak about all of them. */
  lemma EveryTopologyCanRest(links: map<Id, set<Id>>)
    requires Closed(links)
    ensures exists n: Network :: n.links == links && AtRest(n)
  {
    hide TablesFor, SomeTables, ViewOf;
    var n := Network(links, map v | v in links :: SomeTables(v, ViewOf(links, v)));
    forall v | v in n.links ensures NodeAtRest(n, v) {
      ViewIsGood(links, v);
      SomeTablesFit(v, ViewOf(links, v));
    }
    assert AtRest(n);
  }

  lemma ViewIsGood(links: map<Id, set<Id>>, v: Id)
    requires Closed(links) && v in links
    ensures GoodView(v, ViewOf(links, v))
  {}
}

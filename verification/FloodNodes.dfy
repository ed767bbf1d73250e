/** The flood as the nodes carry it out: runs of node objects' states are runs of the flood
    (node/internal/spread/spread.go). */
module FloodNodes {
  import opened NodeIds
  import opened Ring
  import opened Spread
  import opened Flood

  /** The nodes, those that have handled the message in order, and the packets in flight. */
  datatype Net = Net(nodes: map<Id, View>, handled: seq<Id>, flight: seq<Msg>)

  /** What is static: every node knows itself and where its next nodes are, all measure alike, and the
      origin, which posts, is inside the circle. */
  ghost predicate Accurate(nodes: map<Id, View>, c: Content, origin: Id) {
    && origin in nodes && Inside(nodes[origin], c)
    && forall v :: v in nodes ==> AccurateNode(nodes, v, nodes[origin].distance)
  }

  ghost predicate AccurateNode(nodes: map<Id, View>, v: Id, distance: (Pos, Pos) -> real)
    requires v in nodes
  {
    && nodes[v].local == v && nodes[v].distance == distance
    && forall t :: t in nodes[v].nextPositions ==> t in nodes && nodes[v].nextPositions[t] == nodes[t].position
  }

  ghost function WorldOf(nodes: map<Id, View>, c: Content, origin: Id, relayed: bool): World {
    World(map v | v in nodes :: nodes[v].nextPositions.Keys,
          map v | v in nodes :: nodes[v].distance(c.center, nodes[v].position),
          c.r, origin, relayed,
          set v | v in nodes && UsesKnock(nodes[v], c))
  }

  ghost function Having(nodes: map<Id, View>, c: Content): set<Id> {
    set v | v in nodes && c.uid in nodes[v].cache
  }

  ghost function StateOf(n: Net, c: Content): State {
    State(Having(n.nodes, c), n.handled, n.flight)
  }

  /** Nobody has the message, and the origin posts it. */
  ghost predicate Posted(before: map<Id, View>, c: Content, origin: Id, relayed: bool, n: Net) {
    && Accurate(before, c, origin) && Having(before, c) == {}
    && n.handled == [] && origin in n.nodes && n.nodes == before[origin := n.nodes[origin]]
    && Posts(before[origin], c, relayed, n.flight, n.nodes[origin])
  }

  /** The receiver of the `i`-th packet in flight deals with it. */
  ghost predicate Handled(n: Net, c: Content, i: nat, fired: bool, out: seq<Msg>, n': Net) {
    && i < |n.flight| && n.flight[i].dst in n.nodes
    && var v := n.flight[i].dst;
       && v in n'.nodes && n'.nodes == n.nodes[v := n'.nodes[v]]
       && Handles(n.nodes[v], c, n.flight[i], fired, out, n'.nodes[v])
       && n'.handled == n.handled + (if fired then [v] else [])
       && n'.flight == Without(n.flight, i) + out
  }

  ghost predicate NetStep(n: Net, c: Content, n': Net) {
    exists i, fired, out :: Handled(n, c, i, fired, out, n')
  }

  ghost predicate NetRun(before: map<Id, View>, c: Content, origin: Id, relayed: bool, tr: seq<Net>) {
    && tr != [] && Posted(before, c, origin, relayed, tr[0])
    && forall k :: 0 <= k < |tr| - 1 ==> NetStep(tr[k], c, tr[k + 1])
  }

  // ---------------------------------------------------------------- the world does not change

  lemma AccurateIsSound(nodes: map<Id, View>, c: Content, origin: Id, relayed: bool)
    requires Accurate(nodes, c, origin)
    ensures Sound(WorldOf(nodes, c, origin, relayed))
  {
    var w := WorldOf(nodes, c, origin, relayed);
    forall v | v in w.next ensures w.next[v] <= w.next.Keys { assert AccurateNode(nodes, v, nodes[origin].distance); }
  }

  /** Only what is cached changes. */
  ghost predicate CacheOnly(a: View, b: View) {
    b == a.(cache := b.cache)
  }

  lemma SameWorld(nodes: map<Id, View>, v: Id, b: View, c: Content, origin: Id, relayed: bool)
    requires v in nodes && CacheOnly(nodes[v], b)
    ensures WorldOf(nodes[v := b], c, origin, relayed) == WorldOf(nodes, c, origin, relayed)
  {
    var nodes' := nodes[v := b];
    assert forall u :: u in nodes' <==> u in nodes;
    var w, w' := WorldOf(nodes, c, origin, relayed), WorldOf(nodes', c, origin, relayed);
    assert w'.next == w.next;
    assert w'.dist == w.dist;
    assert w'.knockers == w.knockers;
  }

  lemma StillAccurate(nodes: map<Id, View>, v: Id, b: View, c: Content, origin: Id)
    requires Accurate(nodes, c, origin) && v in nodes && CacheOnly(nodes[v], b)
    ensures Accurate(nodes[v := b], c, origin)
  {
    hide AccurateNode;
    var nodes' := nodes[v := b];
    forall u | u in nodes' ensures AccurateNode(nodes', u, nodes[origin].distance) {
      StillAccurateNode(nodes, v, b, u, nodes[origin].distance);
    }
  }

  lemma StillAccurateNode(nodes: map<Id, View>, v: Id, b: View, u: Id, distance: (Pos, Pos) -> real)
    requires v in nodes && u in nodes && CacheOnly(nodes[v], b) && AccurateNode(nodes, u, distance)
    ensures AccurateNode(nodes[v := b], u, distance)
  {}

  // ---------------------------------------------------------------- targets agree

  lemma SameTargets(nodes: map<Id, View>, c: Content, origin: Id, relayed: bool, v: Id, exclude: Option<Id>)
    requires Accurate(nodes, c, origin) && v in nodes && Sound(WorldOf(nodes, c, origin, relayed))
    requires !(relayed && v == origin)
    ensures Spread.Targets(nodes[v], c, exclude) ==
            Flood.Targets(WorldOf(nodes, c, origin, relayed), v) - (if exclude.Some? then {exclude.value} else {})
  {
    assert AccurateNode(nodes, v, nodes[origin].distance);
    assert forall t :: t in nodes ==> AccurateNode(nodes, t, nodes[origin].distance);
  }

  lemma SameRelayTargets(nodes: map<Id, View>, c: Content, origin: Id)
    requires Accurate(nodes, c, origin) && Sound(WorldOf(nodes, c, origin, true))
    ensures RelayTargets(nodes[origin], c) == Flood.Targets(WorldOf(nodes, c, origin, true), origin)
  {
    assert AccurateNode(nodes, origin, nodes[origin].distance);
    assert forall t :: t in nodes ==> AccurateNode(nodes, t, nodes[origin].distance);
  }

  // ---------------------------------------------------------------- every step is a delivery

  lemma HandlesCacheOnly(v: View, c: Content, m: Msg, fired: bool, out: seq<Msg>, v': View)
    requires Handles(v, c, m, fired, out, v')
    ensures CacheOnly(v, v')
    ensures c.uid in v'.cache <==> c.uid in v.cache || fired || (m.Relay? && !Inside(v, c))
  {
    hide Emits;
  }

  lemma NowHaving(nodes: map<Id, View>, v: Id, b: View, c: Content)
    requires v in nodes && (c.uid in nodes[v].cache ==> c.uid in b.cache)
    ensures Having(nodes[v := b], c) == Having(nodes, c) + (if c.uid in b.cache then {v} else {})
  {}

  /** Any node acts as the flood says. */
  lemma NodeAnswers(n: Net, c: Content, origin: Id, relayed: bool, m: Msg, fired: bool, out: seq<Msg>, v': View)
    requires Accurate(n.nodes, c, origin) && Sound(WorldOf(n.nodes, c, origin, relayed)) && m.dst in n.nodes
    requires origin in Having(n.nodes, c)
    requires Handles(n.nodes[m.dst], c, m, fired, out, v')
    ensures var w, cached := WorldOf(n.nodes, c, origin, relayed), Having(n.nodes, c);
            fired == Fires(w, cached, m) && Answers(w, cached, m, out)
  {
    hide Emits, Flood.Targets, Spread.Targets, Sound;
    var v := m.dst;
    assert AccurateNode(n.nodes, v, n.nodes[origin].distance);
    if fired {
      SameTargets(n.nodes, c, origin, relayed, v, Some(m.src));
      SameTargets(n.nodes, c, origin, relayed, v, None);
    }
  }

  /** What the nodes do with a packet is its delivery in the flood, and leaves the world as it is. */
  lemma HandledIsDelivered(n: Net, c: Content, origin: Id, relayed: bool, i: nat, fired: bool, out: seq<Msg>, n': Net)
    requires Accurate(n.nodes, c, origin) && Sound(WorldOf(n.nodes, c, origin, relayed))
    requires Safe(WorldOf(n.nodes, c, origin, relayed), StateOf(n, c)) && Handled(n, c, i, fired, out, n')
    ensures Accurate(n'.nodes, c, origin)
    ensures WorldOf(n'.nodes, c, origin, relayed) == WorldOf(n.nodes, c, origin, relayed)
    ensures Deliver(WorldOf(n.nodes, c, origin, relayed), StateOf(n, c), i, out, StateOf(n', c))
  {
    hide Accurate, Handles, Answers, Fires, Reachable, Having, Sound;
    var w, s, m := WorldOf(n.nodes, c, origin, relayed), StateOf(n, c), n.flight[i];
    var v := m.dst;
    HandlesCacheOnly(n.nodes[v], c, m, fired, out, n'.nodes[v]);
    SameWorld(n.nodes, v, n'.nodes[v], c, origin, relayed);
    StillAccurate(n.nodes, v, n'.nodes[v], c, origin);
    NodeAnswers(n, c, origin, relayed, m, fired, out, n'.nodes[v]);
    NowHaving(n.nodes, v, n'.nodes[v], c);
    RelaysStayInside(n, c, origin, relayed, i);
    HavingIff(n.nodes, c, v);
  }

  lemma HavingIff(nodes: map<Id, View>, c: Content, v: Id)
    ensures v in Having(nodes, c) <==> v in nodes && c.uid in nodes[v].cache
  {}

  /** In the flood of a post from inside, a relay arrives only inside the circle. */
  lemma RelaysStayInside(n: Net, c: Content, origin: Id, relayed: bool, i: nat)
    requires Sound(WorldOf(n.nodes, c, origin, relayed)) && Safe(WorldOf(n.nodes, c, origin, relayed), StateOf(n, c))
    requires i < |n.flight| && n.flight[i].dst in n.nodes
    ensures n.flight[i].Relay? ==> Inside(n.nodes[n.flight[i].dst], c)
  {
    hide Reachable, Having;
    assert n.flight[i] in n.flight;
    assert GoodMsg(WorldOf(n.nodes, c, origin, relayed), Having(n.nodes, c), n.flight[i]);
  }

  // ---------------------------------------------------------------- every run is a flood

  lemma PostedIsInit(before: map<Id, View>, c: Content, origin: Id, relayed: bool, n: Net)
    requires Posted(before, c, origin, relayed, n) && Sound(WorldOf(before, c, origin, relayed))
    ensures Accurate(n.nodes, c, origin) && WorldOf(n.nodes, c, origin, relayed) == WorldOf(before, c, origin, relayed)
    ensures Init(WorldOf(before, c, origin, relayed), StateOf(n, c))
  {
    hide Emits, Flood.Targets, Spread.Targets, RelayTargets, Having, Sound, Accurate;
    OriginKnows(before, c, origin);
    SameWorld(before, origin, n.nodes[origin], c, origin, relayed);
    StillAccurate(before, origin, n.nodes[origin], c, origin);
    HavingIff(before, c, origin);
    NowHaving(before, origin, n.nodes[origin], c);
    if relayed {
      SameRelayTargets(before, c, origin);
    } else {
      SameTargets(before, c, origin, relayed, origin, None);
      var t := Flood.Targets(WorldOf(before, c, origin, relayed), origin);
      assert t - {} == t;
    }
  }

  lemma OriginKnows(nodes: map<Id, View>, c: Content, origin: Id)
    requires Accurate(nodes, c, origin)
    ensures origin in nodes && nodes[origin].local == origin
  {
    assert AccurateNode(nodes, origin, nodes[origin].distance);
  }

  /** States of a run, as states of the flood. */
  ghost function FloodOf(tr: seq<Net>, c: Content): seq<State> {
    seq(|tr|, k requires 0 <= k < |tr| => StateOf(tr[k], c))
  }

  /** Every run of the nodes is a run of the flood in an unchanged world. */
  lemma {:induction false} NetRunIsFlood(before: map<Id, View>, c: Content, origin: Id, relayed: bool, tr: seq<Net>)
    requires NetRun(before, c, origin, relayed, tr)
    ensures var w, n := WorldOf(before, c, origin, relayed), tr[|tr| - 1];
            && Accurate(n.nodes, c, origin) && WorldOf(n.nodes, c, origin, relayed) == w
            && Sound(w) && Flood.Run(w, FloodOf(tr, c))
  {
    hide Accurate, Posted, NetStep, WorldOf, StateOf, Init, Step, Sound;
    var w := WorldOf(before, c, origin, relayed);
    assert Accurate(before, c, origin) by { BeforeAccurate(before, c, origin, relayed, tr[0]); }
    AccurateIsSound(before, c, origin, relayed);
    var k := |tr| - 1;
    if k == 0 {
      PostedIsInit(before, c, origin, relayed, tr[0]);
    } else {
      assert NetStep(tr[k - 1], c, tr[k - 1 + 1]);
      NetRunIsFlood(before, c, origin, relayed, tr[..k]);
      var fl, fl' := FloodOf(tr[..k], c), FloodOf(tr, c);
      assert fl'[..k] == fl;
      RunInvariant(w, fl);
      assert fl[k - 1] == StateOf(tr[k - 1], c);
      StepIsFlood(tr[k - 1], c, origin, relayed, tr[k]);
      forall j | 0 <= j < |fl'| - 1 ensures Step(w, fl'[j], fl'[j + 1]) {
        if j < k - 1 { assert fl'[j] == fl[j] && fl'[j + 1] == fl[j + 1]; }
      }
    }
  }

  lemma BeforeAccurate(before: map<Id, View>, c: Content, origin: Id, relayed: bool, n: Net)
    requires Posted(before, c, origin, relayed, n)
    ensures Accurate(before, c, origin)
  {}

  lemma StepIsFlood(n: Net, c: Content, origin: Id, relayed: bool, n': Net)
    requires Accurate(n.nodes, c, origin) && Sound(WorldOf(n.nodes, c, origin, relayed))
    requires Safe(WorldOf(n.nodes, c, origin, relayed), StateOf(n, c)) && NetStep(n, c, n')
    ensures Accurate(n'.nodes, c, origin)
    ensures WorldOf(n'.nodes, c, origin, relayed) == WorldOf(n.nodes, c, origin, relayed)
    ensures Step(WorldOf(n.nodes, c, origin, relayed), StateOf(n, c), StateOf(n', c))
  {
    hide Accurate, Handled, WorldOf, StateOf, Sound, Safe, Deliver;
    var i, fired, out :| Handled(n, c, i, fired, out, n');
    HandledIsDelivered(n, c, origin, relayed, i, fired, out, n');
  }

  /** However the nodes' packets interleave: nobody handles the message twice, outside the circle or at
      the origin, there are at most three steps per next-node link, and once nothing is in flight the
      nodes that have handled it are those connected to the origin through next nodes inside. */
  lemma NodesFlood(before: map<Id, View>, c: Content, origin: Id, relayed: bool, tr: seq<Net>)
    requires NetRun(before, c, origin, relayed, tr)
    ensures var w, n := WorldOf(before, c, origin, relayed), tr[|tr| - 1];
            && Sound(w) && Flood.Distinct(n.handled) && origin !in n.handled
            && (forall v :: v in n.handled ==> v in before && Inside(before[v], c))
            && |tr| - 1 <= 3 * Links(w, w.next.Keys)
            && (n.flight == [] ==> forall v :: v in n.handled <==> v != origin && Reachable(w, v))
  {
    hide NetRun, Flood.Run, Sound, Reachable, Links;
    var w, fl := WorldOf(before, c, origin, relayed), FloodOf(tr, c);
    NetRunIsFlood(before, c, origin, relayed, tr);
    FloodIsSafe(w, fl);
    FloodDrains(w, fl);
    if tr[|tr| - 1].flight == [] { FloodIsComplete(w, fl); }
  }
}

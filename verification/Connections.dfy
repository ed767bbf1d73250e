/** Which connections a node asks for
    (node/internal/network/routing/routing_1d.go, getConnections). */
module Connections {
  import opened NodeIds
  import opened Ring
  import opened RouteTables
  import opened Routing1D
  import opened TableUpdate
  import opened Sets

  const LINKS_MIN := 4
  const LINK_KEEP_DURATION := 60
  const LEVELS: nat := 8

  /** Seen from neighbour `n`, no node it advertises lies between it and the local node on one side. */
  predicate NearestToPeer(local: Id, n: Id, seconds: set<Id>) {
    (forall x :: x in seconds && !(x < n) ==> local <= x) || (forall x :: x in seconds && x < n ==> x <= local)
  }

  /** What the test is meant to find: on the ring the local node comes right after or right before `n` among
      the nodes `n` is connected to. */
  ghost predicate NextToPeer(local: Id, n: Id, seconds: set<Id>) {
    var others := seconds - {n} + {local};
    IsSuccessor(n, others, local) || IsPredecessor(n, others, local)
  }

  /** The test holds of every neighbour: the list on the far side of `n` from the local node starts, or
      ends, with the local node whatever `n` advertises. */
  lemma NearestToPeerAlways(local: Id, n: Id, seconds: set<Id>)
    requires local != n
    ensures NearestToPeer(local, n, seconds)
  {}

  /** So it agrees with what it is meant to find exactly where that is the case: not, for one, at node 0 for
      its neighbour 10, which is connected to 9 and 11. */
  lemma NearestToPeerAgreesIff(local: Id, n: Id, seconds: set<Id>)
    requires local != n
    ensures (NearestToPeer(local, n, seconds) <==> NextToPeer(local, n, seconds)) <==> NextToPeer(local, n, seconds)
    ensures !NextToPeer(0, 10, {9, 11})
  {
    NearestToPeerAlways(local, n, seconds);
    var others := {9, 11} - {10} + {0};
    assert 11 in others && 9 in others && Cw(10, 11) < Cw(10, 0) && Cw(9, 10) < Cw(0, 10);
  }

  /** A connection that is kept for its own sake: few connections, few advertised nodes, young, or
      this node is its nearest. */
  predicate Kept(local: Id, count: nat, n: Id, i: Info, now: int) {
    || count < LINKS_MIN || |i.seconds| < LINKS_MIN || now < i.timestamp + LINK_KEEP_DURATION
    || NearestToPeer(local, n, i.seconds)
  }

  ghost predicate SameLevel(local: Id, x: Id, y: Id) {
    CalcLevel(local, x) == CalcLevel(local, y)
  }

  ghost function AtLevel(local: Id, s: set<Id>, lv: int): set<Id> {
    set x | x in s && CalcLevel(local, x) == lv
  }

  /** What candidates are compared by: what a neighbour has sent, or what has been sent to another node. */
  function Score(node: Node, x: Id): int
    reads node
  {
    if x in node.infos then node.infos[x].scoreByRecv else ScoreIn(node.routes, x)
  }

  /** The loop over the neighbours. */
  method Classify(node: Node, now: int) returns (kept: set<Id>, keep: set<Id>, candidates: map<Id, int>)
    requires node.Valid()
    ensures forall k :: k in keep <==> k in node.infos && node.infos[k].level == -1
    ensures forall k :: k in kept <==>
              k in node.infos && node.infos[k].level != -1 && Kept(node.local, |node.infos|, k, node.infos[k], now)
    ensures forall k :: k in candidates <==> k in node.infos && k !in keep && k !in kept
    ensures forall k :: k in candidates ==> candidates[k] == Score(node, k) >= 0
    ensures candidates == map[] && kept == node.infos.Keys - keep
  {
    hide TablesFor, Kept, CalcLevel;
    kept, keep, candidates := {}, {}, map[];
    var todo := node.infos.Keys;
    while todo != {}
      invariant todo <= node.infos.Keys
      invariant forall k :: k in keep <==> k in node.infos && k !in todo && node.infos[k].level == -1
      invariant forall k :: k in kept <==>
                  k in node.infos && k !in todo && node.infos[k].level != -1 &&
                  Kept(node.local, |node.infos|, k, node.infos[k], now)
      invariant forall k :: k in candidates <==> k in node.infos && k !in todo && k !in keep && k !in kept
      invariant forall k :: k in candidates ==> candidates[k] == Score(node, k) >= 0
    {
      var k :| k in todo;
      var i := node.infos[k];
      if i.level == -1 {
        keep := keep + {k};
      } else if Kept(node.local, |node.infos|, k, i, now) {
        kept := kept + {k};
      } else {
        candidates := candidates[k := i.scoreByRecv];
      }
      todo := todo - {k};
    }
    NotOwnNeighbor(node);
    forall k | k in node.infos ensures Kept(node.local, |node.infos|, k, node.infos[k], now) {
      AlwaysKept(node.local, |node.infos|, k, node.infos[k], now);
    }
  }

  lemma NotOwnNeighbor(node: Node)
    requires node.Valid()
    ensures node.local !in node.infos
  {
    assert node.local !in InfoView(node.infos);
  }

  lemma AlwaysKept(local: Id, count: nat, n: Id, i: Info, now: int)
    requires local != n
    ensures Kept(local, count, n, i, now)
  {
    NearestToPeerAlways(local, n, i.seconds);
  }

  /** The nodes of route entries that are not neighbours and not required. */
  ghost function Further(node: Node, routes: seq<Route>, required: set<Id>): set<Id>
    reads node
  {
    set r | r in routes && r.level != -1 && r.node !in required && r.node !in node.infos :: r.node
  }

  /** The loop over the route entries: nodes that are not neighbours and not required yet. */
  method AddRoutes(node: Node, required: set<Id>, candidates0: map<Id, int>) returns (candidates: map<Id, int>)
    requires node.Valid() && forall k :: k in candidates0 ==> candidates0[k] == Score(node, k) >= 0
    ensures candidates.Keys == candidates0.Keys + Further(node, node.routes, required)
    ensures forall k :: k in candidates ==> candidates[k] == Score(node, k) >= 0
  {
    hide TablesFor, CalcLevel, ScoreIn;
    RoutesOrdered(node);
    candidates := candidates0;
    for i := 0 to |node.routes|
      invariant candidates.Keys == candidates0.Keys + Further(node, node.routes[..i], required)
      invariant forall k :: k in candidates ==> candidates[k] == Score(node, k) >= 0
    {
      var r := node.routes[i];
      ScoreAt(node.routes, i);
      assert r in node.routes;
      assert node.routes[..i + 1] == node.routes[..i] + [r];
      if r.level != -1 && r.node !in required && r.node !in node.infos {
        candidates := candidates[r.node := r.score];
      }
    }
    assert node.routes[..|node.routes|] == node.routes;
  }

  lemma RoutesOrdered(node: Node)
    requires node.Valid()
    ensures Ordered(0, Nodes(node.routes))
  {}

  /** A candidate of the level with the highest score; scores are not negative, so there is one. */
  method Best(candidates: map<Id, int>, at: set<Id>) returns (best: Id)
    requires at != {} && at <= candidates.Keys && forall k :: k in candidates ==> candidates[k] >= 0
    ensures best in at && forall k :: k in at ==> candidates[k] <= candidates[best]
  {
    var maxScore := -1;
    var max: Option<Id> := None;
    var todo := at;
    while todo != {}
      invariant todo <= at
      invariant max.None? ==> todo == at && maxScore == -1
      invariant max.Some? ==> max.value in at && maxScore == candidates[max.value]
      invariant forall k :: k in at && k !in todo ==> candidates[k] <= maxScore
    {
      var k :| k in todo;
      if maxScore < candidates[k] {
        maxScore := candidates[k];
        max := Some(k);
      }
      todo := todo - {k};
    }
    best := max.value;
  }

  /** Nobody in `rest` scores more than anybody in `picks`. */
  ghost predicate Tops(candidates: map<Id, int>, picks: set<Id>, rest: set<Id>)
    requires picks + rest <= candidates.Keys
  {
    forall p, q :: p in picks && q in rest ==> candidates[q] <= candidates[p]
  }

  lemma NothingTops(candidates: map<Id, int>, at: set<Id>)
    requires at <= candidates.Keys
    ensures Tops(candidates, {}, at)
  {}

  lemma OneMoreTops(candidates: map<Id, int>, picks: set<Id>, rest: set<Id>, best: Id)
    requires picks + rest <= candidates.Keys && Tops(candidates, picks, rest)
    requires best in rest && forall k :: k in rest ==> candidates[k] <= candidates[best]
    ensures Tops(candidates, picks + {best}, rest - {best})
  {}

  lemma OneMorePick(at: set<Id>, picks: set<Id>, best: Id)
    requires picks <= at && best in at - picks
    ensures picks + {best} <= at && at - picks - {best} == at - (picks + {best}) && |picks + {best}| == |picks| + 1
  {}

  /** The best scored candidates of a level, as many as bring the connections there to two. */
  method PickLevel(candidates: map<Id, int>, at: set<Id>, count: nat) returns (picks: set<Id>)
    requires at <= candidates.Keys && forall k :: k in candidates ==> candidates[k] >= 0
    ensures picks <= at
    ensures count + |picks| >= 2 || picks == at
    ensures picks != {} ==> count + |picks| <= 2
    ensures Tops(candidates, picks, at - picks)
  {
    hide Tops;
    picks := {};
    NothingTops(candidates, at);
    assert at - picks == at;
    if count >= 2 {
      return;
    }
    var left := at;
    var i := 0;
    while i < 2 - count
      invariant 0 <= i <= 2 - count && picks <= at && left == at - picks && |picks| == i
      invariant Tops(candidates, picks, left)
    {
      if left == {} {
        return;
      }
      var best := Best(candidates, left);
      OneMoreTops(candidates, picks, left, best);
      OneMorePick(at, picks, best);
      picks := picks + {best};
      left := left - {best};
      i := i + 1;
    }
  }

  ghost predicate LevelServed(local: Id, known: set<Id>, required: set<Id>, lv: int) {
    |AtLevel(local, required, lv)| >= 2 || AtLevel(local, known, lv) <= AtLevel(local, required, lv)
  }

  lemma LevelPicked(local: Id, known: set<Id>, base: set<Id>, kept: set<Id>, candidates: set<Id>, picks: set<Id>,
                    required: set<Id>, lv: int)
    requires known <= base + candidates + AtLevel(local, known, -1) && kept <= base && kept !! candidates
    requires lv != -1 && picks <= AtLevel(local, candidates, lv)
    requires |AtLevel(local, kept, lv)| + |picks| >= 2 || picks == AtLevel(local, candidates, lv)
    requires base + picks <= required
    ensures LevelServed(local, known, required, lv)
  {
    hide CalcLevel;
    if |AtLevel(local, kept, lv)| + |picks| >= 2 {
      assert AtLevel(local, kept, lv) !! picks;
      assert |AtLevel(local, kept, lv) + picks| >= 2;
      SubsetCard(AtLevel(local, kept, lv) + picks, AtLevel(local, required, lv));
    }
  }

  /** Neither a next node nor kept for its own sake: asked for by its score only. */
  ghost predicate Chosen(node: Node, now: int, x: Id)
    reads node
  {
    x !in node.front && x !in node.back &&
    !(x in node.infos && node.infos[x].level != -1 && Kept(node.local, |node.infos|, x, node.infos[x], now))
  }

  /** A known node of the same level as `x` that is not asked for. */
  ghost predicate PassedOver(node: Node, asked: set<Id>, x: Id, y: Id)
    reads node
  {
    y in Known(InfoView(node.infos)) - asked && CalcLevel(node.local, x) != -1 && SameLevel(node.local, x, y)
  }

  /** The nodes asked for: every next node, only known nodes, at every level two nodes or all that are
      known there, every neighbour kept for its own sake; neighbours beyond all levels are kept. As
      the test of the last kind always holds, no neighbour is ever given up. A node asked for by its score
      only has no better scored node of its level left out. */
  method GetConnections(node: Node, now: int) returns (required: set<Id>, keep: set<Id>)
    requires node.Valid()
    ensures Elems(node.front) + Elems(node.back) <= required
    ensures required + keep <= Known(InfoView(node.infos)) && node.local !in required + keep
    ensures forall k :: k in keep <==> k in node.infos && node.infos[k].level == -1
    ensures forall k :: k in node.infos && node.infos[k].level != -1 ==>
              Kept(node.local, |node.infos|, k, node.infos[k], now) ==> k in required
    ensures node.infos.Keys <= required + keep
    ensures forall lv :: 0 <= lv < LEVELS ==> LevelServed(node.local, Known(InfoView(node.infos)), required, lv)
    ensures forall x, y :: x in required && Chosen(node, now, x) && PassedOver(node, required + keep, x, y) ==>
              Score(node, y) <= Score(node, x)
  {
    hide TablesFor, Kept, CalcLevel, LevelServed, Score, Further, PassedOver, AtLevel, Known, SameLevel;
    var kept: set<Id>;
    var candidates: map<Id, int>;
    kept, keep, candidates := Classify(node, now);
    ghost var neighbours := candidates.Keys;
    required := (set x | x in node.front) + (set x | x in node.back) + kept;
    ghost var base := required;
    candidates := AddRoutes(node, required, candidates);
    ghost var known := Known(InfoView(node.infos));
    Cover(node, base, kept, keep, neighbours, candidates.Keys);
    required := FillLevels(node.local, known, required, kept, candidates);
    forall x, y | x in required && Chosen(node, now, x) && PassedOver(node, required + keep, x, y)
      ensures Score(node, y) <= Score(node, x)
    {
      PassedOverIsCandidate(node, base, candidates.Keys, required + keep, x, y);
      assert x !in base;
    }
  }

  lemma PassedOverIsCandidate(node: Node, base: set<Id>, candidates: set<Id>, asked: set<Id>, x: Id, y: Id)
    requires var known := Known(InfoView(node.infos)); known <= base + candidates + AtLevel(node.local, known, -1)
    requires base <= asked && PassedOver(node, asked, x, y)
    ensures y in candidates && y !in asked && SameLevel(node.local, x, y)
  {}

  /** The loop over the levels. */
  method FillLevels(local: Id, ghost known: set<Id>, base: set<Id>, kept: set<Id>, candidates: map<Id, int>)
    returns (required: set<Id>)
    requires known <= base + candidates.Keys + AtLevel(local, known, -1) && kept <= base && kept !! candidates.Keys
    requires forall k :: k in candidates ==> candidates[k] >= 0
    ensures base <= required <= base + candidates.Keys
    ensures forall lv :: 0 <= lv < LEVELS ==> LevelServed(local, known, required, lv)
    ensures forall x, y :: x in required - base && y in candidates.Keys - required && SameLevel(local, x, y) ==>
              candidates[y] <= candidates[x]
  {
    hide CalcLevel, LevelServed;
    required := base;
    for lv := 0 to LEVELS
      invariant base <= required <= base + candidates.Keys
      invariant forall x :: x in required - base ==> CalcLevel(local, x) < lv
      invariant forall x, y :: x in required - base && y in candidates.Keys - required && SameLevel(local, x, y) ==>
                  candidates[y] <= candidates[x]
      invariant forall l :: 0 <= l < lv ==> LevelServed(local, known, required, l)
    {
      var there := set x | x in kept && CalcLevel(local, x) == lv;
      assert AtLevel(local, kept, lv) == there;
      var at := set x | x in candidates && CalcLevel(local, x) == lv;
      assert at == AtLevel(local, candidates.Keys, lv);
      var picks := PickLevel(candidates, at, |there|);
      LevelPicked(local, known, base, kept, candidates.Keys, picks, required + picks, lv);
      forall l | 0 <= l < lv ensures LevelServed(local, known, required + picks, l) {
        ServedMonotone(local, known, required, required + picks, l);
      }
      required := required + picks;
    }
  }

  lemma ServedMonotone(local: Id, known: set<Id>, a: set<Id>, b: set<Id>, lv: int)
    requires a <= b && LevelServed(local, known, a, lv)
    ensures LevelServed(local, known, b, lv)
  {
    hide CalcLevel;
    assert AtLevel(local, a, lv) <= AtLevel(local, b, lv);
    SubsetCard(AtLevel(local, a, lv), AtLevel(local, b, lv));
  }

  /** Every known node is required already, a candidate, or beyond all levels; and all are known. */
  lemma Cover(node: Node, base: set<Id>, kept: set<Id>, keep: set<Id>, neighbours: set<Id>, candidates: set<Id>)
    requires node.Valid()
    requires base == (set x | x in node.front) + (set x | x in node.back) + kept
    requires forall k :: k in keep <==> k in node.infos && node.infos[k].level == -1
    requires forall k :: k in kept ==> k in node.infos
    requires forall k :: k in neighbours <==> k in node.infos && k !in keep && k !in kept
    requires candidates == neighbours + Further(node, node.routes, base)
    ensures var known := Known(InfoView(node.infos));
            && known <= base + candidates + AtLevel(node.local, known, -1)
            && kept <= base && kept !! candidates
            && base + candidates + keep <= known && node.local !in known
  {
    hide CalcLevel, TablesFor, Known;
    var known := Known(InfoView(node.infos));
    KnownFacts(node);
    forall x | x in known ensures x in base + candidates + AtLevel(node.local, known, -1) {
      if x in node.infos {
        if node.infos[x].level != -1 { assert x in base + candidates; }
      } else {
        var r := RouteOf(node, x);
        assert r.level != -1 && x !in base ==> x in candidates;
      }
    }
    forall x | x in candidates ensures x in known && x !in kept {
      if x !in neighbours {
        var r :| r in node.routes && r.level != -1 && r.node !in base && r.node !in node.infos && r.node == x;
      }
    }
  }

  lemma KnownFacts(node: Node)
    requires node.Valid()
    ensures var known := Known(InfoView(node.infos));
            && node.local !in known && node.infos.Keys <= known
            && (forall x :: x in node.front ==> x in known) && (forall x :: x in node.back ==> x in known)
            && forall r :: r in node.routes ==> r.node in known
  {
    hide CalcLevel, FirstHop, NextLists;
    var known := Known(InfoView(node.infos));
    KnownMember(InfoView(node.infos), node.local);
    NextListHeads(node.local, known, node.front, node.back);
    forall x | x in node.front ensures x in known { assert x in Elems(node.front); }
    forall x | x in node.back ensures x in known { assert x in Elems(node.back); }
    forall i | 0 <= i < |node.routes| ensures node.routes[i].node in known {
      assert Nodes(node.routes)[i] in Elems(Nodes(node.routes));
    }
  }

  lemma RouteOf(node: Node, x: Id) returns (r: Route)
    requires node.Valid() && x in Known(InfoView(node.infos))
    ensures r in node.routes && r.node == x && r.level == CalcLevel(node.local, x)
  {
    hide CalcLevel, FirstHop, NextLists, Known;
    assert x in Elems(Nodes(node.routes));
    var i :| 0 <= i < |node.routes| && Nodes(node.routes)[i] == x;
    r := node.routes[i];
  }
}

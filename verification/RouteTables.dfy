/** What a node's one-dimensional routing tables must say, stated over the node's view: the nodes it
    is connected to, each with the nodes it advertises (node/internal/network/routing/routing_1d.go). */
module RouteTables {
  import opened Bits
  import opened NodeIds
  import opened Ring

  type View = map<Id, set<Id>>

  datatype Route = Route(node: Id, first: Id, level: int, score: int)

  datatype Dest = ToLocal | ToNeighborhoods | ToNode(id: Id)

  datatype Step = Accept | Multicast | Drop | Forward(hop: Id)

  const ONE_SIDE_NEXT_COUNT := 2

  ghost predicate GoodView(local: Id, view: View) {
    local !in view && forall k :: k in view ==> local !in view[k]
  }

  /** Every node the view mentions. */
  function Known(view: View): set<Id> {
    view.Keys + set k, x | k in view && x in view[k] :: x
  }

  lemma KnownMember(view: View, x: Id)
    ensures x in Known(view) <==> x in view || exists k :: k in view && x in view[k]
  {}

  // ---------------------------------------------------------------- route entries

  /** `f` is a permitted first hop for `x`: `x` itself when connected, otherwise an advertising
      neighbour at minimal ring distance from `x`. */
  ghost predicate FirstHop(view: View, x: Id, f: Id) {
    f in view &&
    if x in view then f == x
    else x in view[f] && forall g :: g in view && x in view[g] ==> Dist(f, x) <= Dist(g, x)
  }

  function Nodes(routes: seq<Route>): seq<Id> {
    seq(|routes|, i requires 0 <= i < |routes| => routes[i].node)
  }

  ghost predicate RouteTable(local: Id, view: View, routes: seq<Route>) {
    && Ordered(0, Nodes(routes))
    && Elems(Nodes(routes)) == Known(view)
    && forall r :: r in routes ==> FirstHop(view, r.node, r.first) && r.level == CalcLevel(local, r.node)
  }

  const LEVEL_RANGES: seq<Id> := [
    0x0001FFFFFFFFFFFF_FFFFFFFFFFFFFFFF,
    0x0007FFFFFFFFFFFF_FFFFFFFFFFFFFFFF,
    0x001FFFFFFFFFFFFF_FFFFFFFFFFFFFFFF,
    0x007FFFFFFFFFFFFF_FFFFFFFFFFFFFFFF,
    0x01FFFFFFFFFFFFFF_FFFFFFFFFFFFFFFF,
    0x07FFFFFFFFFFFFFF_FFFFFFFFFFFFFFFF,
    0x1FFFFFFFFFFFFFFF_FFFFFFFFFFFFFFFF,
    0x7FFFFFFFFFFFFFFF_FFFFFFFFFFFFFFFF
  ]

  /** The upper bounds of the levels grow fourfold: range `i` ends below 2^(113 + 2i) - 1. */
  lemma RangesAreQuarters()
    ensures |LEVEL_RANGES| == 8
    ensures forall i :: 0 <= i < |LEVEL_RANGES| ==> LEVEL_RANGES[i] == Pow2(113 + 2 * i) - 1
  {
    hide Pow2;
    FirstRange();
    for i := 0 to 8
      invariant forall j :: 0 <= j < i ==> LEVEL_RANGES[j] == Pow2(113 + 2 * j) - 1
    {
      if i > 0 {
        Fourfold(113 + 2 * (i - 1));
        assert LEVEL_RANGES[i] == 4 * LEVEL_RANGES[i - 1] + 3;
      }
    }
  }

  lemma FirstRange()
    ensures LEVEL_RANGES[0] == Pow2(113) - 1
  {
    Pow2Words();
    Pow2Add(62, 51);
    Pow2Add(51, 11);
    assert Pow2(11) == 0x800;
  }

  lemma Fourfold(k: nat)
    ensures Pow2(k + 2) == 4 * Pow2(k)
  {
    assert Pow2(k + 2) == 2 * Pow2(k + 1);
  }

  /** Index of the first range above the clockwise distance from the local node, or -1. */
  function CalcLevel(local: Id, x: Id): int {
    LevelFrom(Cw(local, x), 0)
  }

  function LevelFrom(d: Id, i: nat): (l: int)
    requires i <= |LEVEL_RANGES|
    ensures -1 <= l < |LEVEL_RANGES|
    decreases |LEVEL_RANGES| - i
  {
    if i == |LEVEL_RANGES| then -1
    else if d < LEVEL_RANGES[i] then i
    else LevelFrom(d, i + 1)
  }

  /** The level names the first range that the clockwise distance is below; -1 if there is none. */
  lemma LevelIsFirstRange(local: Id, x: Id)
    ensures var l := CalcLevel(local, x);
            && (l >= 0 ==> Cw(local, x) < LEVEL_RANGES[l] && forall j :: 0 <= j < l ==> LEVEL_RANGES[j] <= Cw(local, x))
            && (l == -1 <==> LEVEL_RANGES[|LEVEL_RANGES| - 1] <= Cw(local, x))
  {
    LevelFromIsFirst(Cw(local, x), 0);
    assert forall j :: 0 <= j < |LEVEL_RANGES| ==> LEVEL_RANGES[j] <= LEVEL_RANGES[|LEVEL_RANGES| - 1];
  }

  lemma {:induction false} LevelFromIsFirst(d: Id, i: nat)
    requires i <= |LEVEL_RANGES|
    ensures var l := LevelFrom(d, i);
            && (l >= 0 ==> i <= l && d < LEVEL_RANGES[l] && forall j :: i <= j < l ==> LEVEL_RANGES[j] <= d)
            && (l == -1 ==> forall j :: i <= j < |LEVEL_RANGES| ==> LEVEL_RANGES[j] <= d)
    decreases |LEVEL_RANGES| - i
  {
    if i < |LEVEL_RANGES| && LEVEL_RANGES[i] <= d {
      LevelFromIsFirst(d, i + 1);
    }
  }

  // ---------------------------------------------------------------- next nodes

  /** The known nodes in clockwise order from the local one. */
  ghost predicate RingOrder(local: Id, known: set<Id>, s: seq<Id>) {
    Ordered(local, s) && Elems(s) == known
  }

  function Reversed<T>(s: seq<T>): (r: seq<T>)
    ensures |r| == |s| && forall i :: 0 <= i < |s| ==> r[i] == s[|s| - 1 - i]
  {
    seq(|s|, i requires 0 <= i < |s| => s[|s| - 1 - i])
  }

  /** Where the forward list ends and the backward list begins in clockwise order. */
  function FrontEnd(n: nat): nat {
    if n == 1 then 1 else if n >= 2 * ONE_SIDE_NEXT_COUNT then ONE_SIDE_NEXT_COUNT else n / 2
  }

  function BackStart(n: nat): nat {
    if n == 1 then 0 else if n >= 2 * ONE_SIDE_NEXT_COUNT then n - ONE_SIDE_NEXT_COUNT else n / 2
  }

  /** The forward list is the start of the clockwise order, the backward list its end, reversed. */
  ghost predicate Ends(s: seq<Id>, front: seq<Id>, back: seq<Id>) {
    && |front| == FrontEnd(|s|) && |back| == |s| - BackStart(|s|)
    && (forall i :: 0 <= i < |front| ==> front[i] == s[i])
    && (forall i :: 0 <= i < |back| ==> back[i] == s[|s| - 1 - i])
  }

  ghost predicate NextLists(local: Id, known: set<Id>, front: seq<Id>, back: seq<Id>) {
    exists s :: RingOrder(local, known, s) && Ends(s, front, back)
  }

  ghost predicate IsSuccessor(local: Id, known: set<Id>, x: Id) {
    x in known && forall y :: y in known ==> Cw(local, x) <= Cw(local, y)
  }

  ghost predicate IsPredecessor(local: Id, known: set<Id>, x: Id) {
    x in known && forall y :: y in known ==> Cw(x, local) <= Cw(y, local)
  }

  lemma RingOrderEnds(local: Id, known: set<Id>, s: seq<Id>)
    requires local !in known && RingOrder(local, known, s) && s != []
    ensures IsSuccessor(local, known, s[0]) && IsPredecessor(local, known, s[|s| - 1])
  {
    var n := |s|;
    forall y | y in known
      ensures Cw(local, s[0]) <= Cw(local, y) && Cw(s[n - 1], local) <= Cw(y, local)
    {
      assert y in Elems(s);
      var i :| 0 <= i < n && s[i] == y;
    }
    assert s[0] in Elems(s) && s[n - 1] in Elems(s);
  }

  /** Heads of the two lists are the ring neighbours among the known nodes, and neither list is
      empty once something is known. */
  lemma NextListHeads(local: Id, known: set<Id>, front: seq<Id>, back: seq<Id>)
    requires local !in known && NextLists(local, known, front, back)
    ensures known == {} <==> front == []
    ensures known == {} <==> back == []
    ensures known != {} ==> IsSuccessor(local, known, front[0]) && IsPredecessor(local, known, back[0])
    ensures Elems(front) <= known && Elems(back) <= known
  {
    hide IsSuccessor, IsPredecessor, Ordered;
    var s :| RingOrder(local, known, s) && Ends(s, front, back);
    var n := |s|;
    if s == [] {
      assert Elems(s) == {};
    } else {
      assert s[0] in Elems(s);
      assert front[0] == s[0] && back[0] == s[n - 1];
      RingOrderEnds(local, known, s);
    }
    forall x | x in front ensures x in known { assert x in s; }
    forall x | x in back ensures x in known { assert x in s; }
  }

  /** At most two nodes on either side, sharing fewer than four; one known node is on both. */
  lemma NextListSizes(local: Id, known: set<Id>, front: seq<Id>, back: seq<Id>)
    requires NextLists(local, known, front, back)
    ensures |known| >= 4 ==> |front| == 2 && |back| == 2
    ensures 2 <= |known| < 4 ==> |front| == 1 && |front| + |back| == |known|
    ensures |known| < 2 ==> |front| == |known| && |back| == |known|
  {
    hide Ordered;
    var s :| RingOrder(local, known, s) && Ends(s, front, back);
    OrderedCard(local, s);
  }

  /** Both lists are determined by the known nodes. */
  lemma NextListsUnique(local: Id, known: set<Id>, f: seq<Id>, b: seq<Id>, f': seq<Id>, b': seq<Id>)
    requires NextLists(local, known, f, b) && NextLists(local, known, f', b')
    ensures f == f' && b == b'
  {
    var s :| RingOrder(local, known, s) && Ends(s, f, b);
    var s' :| RingOrder(local, known, s') && Ends(s', f', b');
    OrderedUnique(local, s, s');
  }

  // ---------------------------------------------------------------- next step

  /** Half-open arc test; the two ends differ. */
  predicate IsBetween(a: Id, b: Id, target: Id)
    requires a != b
  {
    if a < b then a <= target && target < b else a <= target || target < b
  }

  lemma BetweenIsArc(a: Id, b: Id, target: Id)
    requires a != b
    ensures IsBetween(a, b, target) <==> Cw(a, target) < Cw(a, b)
  {}

  datatype Tables = Tables(front: seq<Id>, back: seq<Id>, routes: seq<Route>)

  ghost predicate TablesFor(local: Id, view: View, t: Tables) {
    && GoodView(local, view)
    && NextLists(local, Known(view), t.front, t.back)
    && RouteTable(local, view, t.routes)
  }

  /** The entry the linear scan selects: the last one not above `dst`, wrapping to the last of all. */
  function Candidate(routes: seq<Route>, dst: Id): (i: nat)
    requires routes != []
    ensures i < |routes|
  {
    var last := |routes| - 1;
    if routes[last].node <= dst then last else ScanFrom(routes, dst, 0, last)
  }

  function ScanFrom(routes: seq<Route>, dst: Id, i: nat, candidate: nat): (r: nat)
    requires i <= |routes| && candidate < |routes|
    ensures r < |routes|
    decreases |routes| - i
  {
    if i == |routes| || dst < routes[i].node then candidate else ScanFrom(routes, dst, i + 1, i)
  }

  /** The tables on which getNextStep indexes and compares without panicking. */
  predicate Usable(local: Id, t: Tables) {
    |t.front| + |t.back| != 0 ==>
      t.front != [] && t.back != [] && t.routes != [] && t.front[0] != local && t.back[0] != local
  }

  /** The decision of getNextStep. */
  function NextStep(local: Id, t: Tables, dst: Dest, isExplicit: bool): Step
    requires Usable(local, t)
  {
    if dst.ToLocal? || dst == ToNode(local) then Accept
    else if dst.ToNeighborhoods? then Multicast
    else if |t.front| + |t.back| == 0 then
      if isExplicit then Drop else Accept
    else if IsBetween(local, t.front[0], dst.id) then
      if isExplicit then Drop else Accept
    else if IsBetween(t.back[0], local, dst.id) && isExplicit && t.back[0] != dst.id then Drop
    else Forward(t.routes[Candidate(t.routes, dst.id)].first)
  }

  /** The scan selects the entry at least clockwise distance before `dst`. */
  lemma CandidateIsRingPredecessor(routes: seq<Route>, dst: Id)
    requires routes != [] && Ordered(0, Nodes(routes))
    ensures forall i :: 0 <= i < |routes| ==> Cw(routes[Candidate(routes, dst)].node, dst) <= Cw(routes[i].node, dst)
  {
    var n := Nodes(routes);
    var last := |routes| - 1;
    assert forall i, j :: 0 <= i < j < |routes| ==> n[i] < n[j];
    if routes[last].node > dst {
      ScanSelects(routes, dst, 0, last);
    } else {
      forall i | 0 <= i < |routes| ensures Cw(routes[last].node, dst) <= Cw(routes[i].node, dst) {
        assert n[i] == routes[i].node && n[last] == routes[last].node;
      }
    }
  }

  /** Tables that agree with a view never make getNextStep panic. */
  lemma TablesAreUsable(local: Id, view: View, t: Tables)
    requires TablesFor(local, view, t)
    ensures Usable(local, t)
    ensures |t.front| + |t.back| == 0 <==> view == map[]
  {
    NextListHeads(local, Known(view), t.front, t.back);
    if Known(view) != {} {
      assert t.routes == [] ==> Elems(Nodes(t.routes)) == {};
      assert t.front[0] in Known(view) && t.back[0] in Known(view);
    } else {
      assert view.Keys <= Known(view);
    }
    KnownMember(view, local);
  }

  lemma {:induction false} ScanSelects(routes: seq<Route>, dst: Id, i: nat, candidate: nat)
    requires i < |routes| && candidate == (if i == 0 then |routes| - 1 else i - 1)
    requires forall a, b :: 0 <= a < b < |routes| ==> Nodes(routes)[a] < Nodes(routes)[b]
    requires routes[|routes| - 1].node > dst
    requires i > 0 ==> routes[i - 1].node <= dst
    ensures var c := ScanFrom(routes, dst, i, candidate);
            forall j :: 0 <= j < |routes| ==> Cw(routes[c].node, dst) <= Cw(routes[j].node, dst)
    decreases |routes| - i
  {
    if routes[i].node <= dst {
      ScanSelects(routes, dst, i + 1, i);
    } else {
      var n := Nodes(routes);
      forall j | 0 <= j < |routes|
        ensures Cw(routes[candidate].node, dst) <= Cw(routes[j].node, dst)
      {
        assert n[j] == routes[j].node && n[candidate] == routes[candidate].node && n[i] == routes[i].node;
      }
    }
  }

  ghost predicate IsNearest(s: set<Id>, dst: Id, x: Id) {
    x in s && forall y :: y in s ==> Cw(x, dst) <= Cw(y, dst)
  }

  /** A forwarded packet goes to a first hop of the known node nearest before `dst`, which is not the
      local node. */
  lemma ForwardTowardsNearest(local: Id, view: View, t: Tables, dst: Id, isExplicit: bool, x: Id)
    requires TablesFor(local, view, t) && Usable(local, t)
    requires NextStep(local, t, ToNode(dst), isExplicit).Forward?
    requires IsNearest(Known(view) + {local}, dst, x)
    ensures x != local && x in Known(view)
    ensures FirstHop(view, x, NextStep(local, t, ToNode(dst), isExplicit).hop)
  {
    hide FirstHop, Known, NextLists, RouteTable, Candidate;
    KnownMember(view, local);
    NextListHeads(local, Known(view), t.front, t.back);
    var front := t.front[0];
    BetweenIsArc(local, front, dst);
    BestIsNotLocal(local, Known(view), front, dst, x);
    SelectedRoute(view, local, t.routes, dst, x);
  }

  lemma BestIsNotLocal(local: Id, known: set<Id>, front: Id, dst: Id, x: Id)
    requires front in known && front != local && Cw(local, front) <= Cw(local, dst)
    requires IsNearest(known + {local}, dst, x)
    ensures x != local && x in known && IsNearest(known, dst, x)
  {
    assert front in known + {local};
    assert Cw(front, dst) < Cw(local, dst);
  }

  lemma SelectedRoute(view: View, local: Id, routes: seq<Route>, dst: Id, x: Id)
    requires RouteTable(local, view, routes) && routes != []
    requires IsNearest(Known(view), dst, x)
    ensures routes[Candidate(routes, dst)].node == x
    ensures FirstHop(view, x, routes[Candidate(routes, dst)].first)
  {
    hide FirstHop, Candidate;
    var c := Candidate(routes, dst);
    CandidateIsRingPredecessor(routes, dst);
    assert x in Elems(Nodes(routes));
    var i :| 0 <= i < |routes| && Nodes(routes)[i] == x;
    assert Nodes(routes)[c] in Elems(Nodes(routes));
    assert routes[c] in routes;
  }

  /** A non-explicit packet is accepted by a node that knows nobody or owns the arc holding `dst`. */
  lemma AcceptedNearby(local: Id, view: View, t: Tables, dst: Id)
    requires TablesFor(local, view, t) && Usable(local, t)
    requires NextStep(local, t, ToNode(dst), false) == Accept
    ensures view == map[] || (t.front != [] && Cw(local, dst) < Cw(local, t.front[0]))
  {
    TablesAreUsable(local, view, t);
    NextListHeads(local, Known(view), t.front, t.back);
    if t.front != [] { BetweenIsArc(local, t.front[0], dst); }
  }

  /** Where `local`, whose lists are headed by `front` and `back`, knows nobody to pass an explicit packet
      to: it knows nobody at all, or `dst` lies in the gap to its successor or to its predecessor. */
  ghost predicate InGap(local: Id, front: seq<Id>, back: seq<Id>, dst: Id) {
    || front == [] || back == []
    || Cw(local, dst) < Cw(local, front[0])
    || (Cw(back[0], dst) < Cw(back[0], local) && dst != back[0])
  }

  /** The whole decision: only packets to the neighbours are multicast, packets to this node are accepted,
      explicit packets to others are dropped exactly in a gap and other packets accepted exactly before
      the successor; everything else goes to a first hop of the nearest known node. */
  lemma StepDecides(local: Id, view: View, t: Tables, dst: Dest, isExplicit: bool)
    requires TablesFor(local, view, t) && Usable(local, t)
    ensures var step := NextStep(local, t, dst, isExplicit);
            && (step.Multicast? <==> dst.ToNeighborhoods?)
            && (dst.ToLocal? || dst == ToNode(local) ==> step.Accept?)
            && (step.Drop? <==> dst.ToNode? && dst.id != local && isExplicit && InGap(local, t.front, t.back, dst.id))
            && (step.Accept? && dst.ToNode? && dst.id != local <==>
                  dst.ToNode? && dst.id != local && !isExplicit &&
                  (t.front == [] || Cw(local, dst.id) < Cw(local, t.front[0])))
            && (step.Forward? ==> exists x :: IsNearest(Known(view), dst.id, x) && FirstHop(view, x, step.hop))
  {
    hide FirstHop, NextLists, RouteTable, Known, Candidate;
    TablesAreUsable(local, view, t);
    KnownMember(view, local);
    NextListHeads(local, Known(view), t.front, t.back);
    if dst.ToNode? && t.front != [] {
      BetweenIsArc(local, t.front[0], dst.id);
      BetweenIsArc(t.back[0], local, dst.id);
      if NextStep(local, t, dst, isExplicit).Forward? {
        NearestExists(Known(view), dst.id);
        var x :| IsNearest(Known(view), dst.id, x);
        SelectedRoute(view, local, t.routes, dst.id, x);
      }
    }
  }

  lemma StepShape(local: Id, t: Tables, dst: Id, isExplicit: bool)
    requires Usable(local, t)
    ensures var step := NextStep(local, t, ToNode(dst), isExplicit);
            && !step.Multicast?
            && (step.Drop? ==> isExplicit)
            && (step.Drop? ==> dst != local)
            && (step.Drop? && t.front != [] ==>
                  (IsBetween(local, t.front[0], dst) || (IsBetween(t.back[0], local, dst) && t.back[0] != dst)))
            && (step.Accept? && isExplicit ==> dst == local)
  {}

  // ---------------------------------------------------------------- tables exist for every view

  lemma {:induction false} NearestExists(s: set<Id>, dst: Id)
    requires s != {}
    ensures exists x :: IsNearest(s, dst, x)
    decreases s
  {
    var y :| y in s;
    if forall w :: w in s ==> Cw(y, dst) <= Cw(w, dst) {
      assert IsNearest(s, dst, y);
    } else {
      var w :| w in s && Cw(w, dst) < Cw(y, dst);
      assert w in s - {y};
      NearestExists(s - {y}, dst);
      var z :| IsNearest(s - {y}, dst, z);
      assert IsNearest(s, dst, z);
    }
  }

  lemma {:induction false} OrderExists(base: Id, s: set<Id>)
    ensures exists q :: RingOrder(base, s, q)
    decreases s
  {
    if s == {} {
      assert RingOrder(base, s, []);
    } else {
      var before: Id := if base == 0 then M - 1 else base - 1;
      NearestExists(s, before);
      var x :| IsNearest(s, before, x);
      OrderExists(base, s - {x});
      var q :| RingOrder(base, s - {x}, q);
      forall i | 0 <= i < |q| ensures Cw(base, q[i]) < Cw(base, x) {
        assert q[i] in Elems(q);
      }
      assert Elems(q + [x]) == Elems(q) + {x};
      assert RingOrder(base, s, q + [x]);
    }
  }

  ghost predicate IsClosest(s: set<Id>, x: Id, f: Id) {
    f in s && forall g :: g in s ==> Dist(f, x) <= Dist(g, x)
  }

  lemma {:induction false} ClosestExists(s: set<Id>, x: Id)
    requires s != {}
    ensures exists f: Id :: IsClosest(s, x, f)
    decreases s
  {
    hide Dist;
    var y :| y in s;
    if forall g :: g in s ==> Dist(y, x) <= Dist(g, x) {
      assert IsClosest(s, x, y);
    } else {
      var w :| w in s && Dist(w, x) < Dist(y, x);
      assert w in s - {y};
      ClosestExists(s - {y}, x);
      var f :| IsClosest(s - {y}, x, f);
      assert IsClosest(s, x, f);
    }
  }

  lemma FirstHopExists(view: View, x: Id)
    requires x in Known(view)
    ensures exists f: Id :: FirstHop(view, x, f)
  {
    if x in view {
      assert FirstHop(view, x, x);
    } else {
      var s := set g | g in view && x in view[g];
      KnownMember(view, x);
      var k :| k in view && x in view[k];
      assert k in s;
      ClosestExists(s, x);
      var f :| IsClosest(s, x, f);
      assert f in s;
      assert FirstHop(view, x, f) by {
        forall g | g in view && x in view[g] ensures Dist(f, x) <= Dist(g, x) { assert g in s; }
      }
    }
  }

  ghost function SomeHop(view: View, x: Id): Id {
    if exists f: Id :: FirstHop(view, x, f) then (var f: Id :| FirstHop(view, x, f); f) else x
  }

  ghost function SomeOrder(base: Id, s: set<Id>): (q: seq<Id>)
    ensures RingOrder(base, s, q)
  {
    OrderExists(base, s);
    var q :| RingOrder(base, s, q);
    q
  }

  /** Tables for a view: some permitted first hop for every known node. */
  ghost function SomeTables(local: Id, view: View): Tables {
    var q, nodes := SomeOrder(local, Known(view)), SomeOrder(0, Known(view));
    Tables(q[..FrontEnd(|q|)], Reversed(q[BackStart(|q|)..]),
           seq(|nodes|, i requires 0 <= i < |nodes| =>
             Route(nodes[i], SomeHop(view, nodes[i]), CalcLevel(local, nodes[i]), 0)))
  }

  lemma SomeTablesFit(local: Id, view: View)
    requires GoodView(local, view)
    ensures TablesFor(local, view, SomeTables(local, view))
  {
    hide SomeHop, FirstHop, CalcLevel, Known;
    var t := SomeTables(local, view);
    var q, nodes := SomeOrder(local, Known(view)), SomeOrder(0, Known(view));
    assert Ends(q, t.front, t.back);
    assert NextLists(local, Known(view), t.front, t.back);
    assert Nodes(t.routes) == nodes;
    forall i | 0 <= i < |t.routes| ensures FirstHop(view, t.routes[i].node, t.routes[i].first) {
      assert nodes[i] in Elems(nodes);
      SomeHopFits(view, nodes[i]);
    }
  }

  lemma SomeHopFits(view: View, x: Id)
    requires x in Known(view)
    ensures FirstHop(view, x, SomeHop(view, x))
  {
    FirstHopExists(view, x);
  }
}

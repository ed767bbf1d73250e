/** The loops that rebuild a node's routing tables from its view
    (node/internal/network/routing/routing_1d.go, updateRouteInfos and updateNextNodeIDs). */
module TableUpdate {
  import opened Ring
  import opened RouteTables

  // ---------------------------------------------------------------- first hops

  ghost predicate FirstHops(view: View, m: map<Id, Id>) {
    m.Keys == Known(view) && forall x :: x in m ==> FirstHop(view, x, m[x])
  }

  lemma FirstHopsAddNeighbor(view: View, m: map<Id, Id>, f: Id)
    requires f !in view && FirstHops(view, m)
    ensures FirstHops(view[f := {}], m[f := f])
  {
    var view', m' := view[f := {}], m[f := f];
    assert Known(view') == Known(view) + {f} by {
      forall x ensures x in Known(view') <==> x in Known(view) || x == f {
        if x in Known(view) && x !in view {
          var k :| k in view && x in view[k];
          assert k in view' && x in view'[k];
        }
      }
    }
    forall x | x in m' ensures FirstHop(view', x, m'[x]) {
      if x != f { assert FirstHop(view, x, m[x]); }
    }
  }

  /** The update the inner loop makes when neighbour `f` advertises `x`. */
  function Offer(m: map<Id, Id>, f: Id, x: Id): map<Id, Id> {
    if x !in m then m[x := f]
    else if m[x] == x then m
    else if Dist(f, x) < Dist(m[x], x) then m[x := f]
    else m
  }

  lemma FirstHopsAddAdvertised(view: View, m: map<Id, Id>, f: Id, x: Id)
    requires f in view && FirstHops(view, m)
    ensures FirstHops(view[f := view[f] + {x}], Offer(m, f, x))
  {
    var view', m' := view[f := view[f] + {x}], Offer(m, f, x);
    KnownGrows(view, f, x);
    assert m'.Keys == m.Keys + {x};
    forall y | y in m' ensures FirstHop(view', y, m'[y]) {
      if y in m { assert FirstHop(view, y, m[y]); }
      if y == x {
        if x !in m { assert forall g :: g in view ==> x !in view[g]; }
      } else {
        assert forall g :: g in view' ==> (y in view'[g] <==> y in view[g]);
      }
    }
  }

  lemma KnownGrows(view: View, f: Id, x: Id)
    requires f in view
    ensures Known(view[f := view[f] + {x}]) == Known(view) + {x}
  {
    var view' := view[f := view[f] + {x}];
    forall y ensures y in Known(view') <==> y in Known(view) || y == x {
      if y in Known(view) && y !in view {
        var k :| k in view && y in view[k];
        assert k in view' && y in view'[k];
      }
      if y == x { assert y in view'[f]; }
    }
  }

  /** The nested loop of updateRouteInfos: neighbours and their advertisements in any order. */
  method CollectFirstHops(local: Id, view: View) returns (m: map<Id, Id>)
    requires GoodView(local, view)
    ensures FirstHops(view, m)
  {
    m := map[];
    var todo := view.Keys;
    ghost var seen: View := map[];
    while todo != {}
      invariant todo <= view.Keys && seen.Keys == view.Keys - todo
      invariant forall k :: k in seen ==> seen[k] == view[k]
      invariant FirstHops(seen, m)
    {
      var f :| f in todo;
      FirstHopsAddNeighbor(seen, m, f);
      m := m[f := f];
      seen := seen[f := {}];
      m, seen := OfferAll(local, view[f], f, m, seen);
      todo := todo - {f};
    }
    assert seen == view;
  }

  method OfferAll(local: Id, advertised: set<Id>, f: Id, m0: map<Id, Id>, ghost seen0: View)
    returns (m: map<Id, Id>, ghost seen: View)
    requires f in seen0 && seen0[f] == {} && local !in advertised && FirstHops(seen0, m0)
    ensures seen == seen0[f := advertised] && FirstHops(seen, m)
  {
    hide FirstHops, Offer;
    m, seen := m0, seen0;
    var todo := advertised;
    assert advertised - todo == {} && seen == seen0[f := {}];
    while todo != {}
      invariant todo <= advertised
      invariant seen == seen0[f := advertised - todo]
      invariant FirstHops(seen, m)
    {
      var x :| x in todo;
      assert advertised - (todo - {x}) == advertised - todo + {x};
      if x != local {
        FirstHopsAddAdvertised(seen, m, f, x);
        m := Offer(m, f, x);
        seen := seen[f := seen[f] + {x}];
      }
      todo := todo - {x};
    }
    assert advertised - todo == advertised;
  }

  // ---------------------------------------------------------------- route entries

  function ScoreIn(routes: seq<Route>, x: Id): int {
    if routes == [] then 0 else if routes[0].node == x then routes[0].score else ScoreIn(routes[1..], x)
  }

  lemma {:induction false} ScoreAt(routes: seq<Route>, i: nat)
    requires Ordered(0, Nodes(routes)) && i < |routes|
    ensures ScoreIn(routes, routes[i].node) == routes[i].score
  {
    assert Nodes(routes)[0] == routes[0].node && Nodes(routes)[i] == routes[i].node;
    if i > 0 {
      assert Nodes(routes)[0] < Nodes(routes)[i];
      assert Nodes(routes[1..]) == Nodes(routes)[1..];
      ScoreAt(routes[1..], i - 1);
    }
  }

  lemma {:induction false} ScoreOfNew(routes: seq<Route>, x: Id)
    requires x !in Nodes(routes)
    ensures ScoreIn(routes, x) == 0
  {
    if routes != [] {
      assert Nodes(routes)[0] == routes[0].node;
      assert Nodes(routes[1..]) == Nodes(routes)[1..];
      ScoreOfNew(routes[1..], x);
    }
  }

  function InsertRoute(r: Route, s: seq<Route>): seq<Route> {
    if s == [] || r.node <= s[0].node then [r] + s else [s[0]] + InsertRoute(r, s[1..])
  }

  lemma {:induction false} InsertRouteNodes(r: Route, s: seq<Route>)
    ensures Nodes(InsertRoute(r, s)) == Insert(r.node, Nodes(s))
    ensures forall q :: q in InsertRoute(r, s) <==> q == r || q in s
  {
    if s == [] || r.node <= s[0].node {
      assert Nodes([r] + s) == [r.node] + Nodes(s);
    } else {
      InsertRouteNodes(r, s[1..]);
      assert Nodes(s[1..]) == Nodes(s)[1..];
      assert Nodes([s[0]] + InsertRoute(r, s[1..])) == [s[0].node] + Nodes(InsertRoute(r, s[1..]));
      assert forall q :: q in s <==> q == s[0] || q in s[1..];
    }
  }

  /** The fields an entry must have after the update. */
  ghost predicate Entry(local: Id, hops: map<Id, Id>, previous: seq<Route>, r: Route) {
    && r.node in hops && r.first == hops[r.node]
    && r.level == CalcLevel(local, r.node) && r.score == ScoreIn(previous, r.node)
  }

  /** Sorted entries for exactly the nodes of `done`. */
  ghost predicate Entries(local: Id, hops: map<Id, Id>, previous: seq<Route>, done: set<Id>, routes: seq<Route>) {
    && Ordered(0, Nodes(routes)) && Elems(Nodes(routes)) == done
    && forall r :: r in routes ==> Entry(local, hops, previous, r)
  }

  lemma EntriesInsert(local: Id, hops: map<Id, Id>, previous: seq<Route>, done: set<Id>, routes: seq<Route>, r: Route)
    requires Entries(local, hops, previous, done, routes) && r.node !in done && Entry(local, hops, previous, r)
    ensures Entries(local, hops, previous, done + {r.node}, InsertRoute(r, routes))
  {
    hide Entry;
    InsertRouteNodes(r, routes);
    assert r.node !in Elems(Nodes(routes));
    InsertOrdered(r.node, Nodes(routes));
    InsertElems(r.node, Nodes(routes));
  }

  /** Surviving entries keep their level and score and get the new first hop; new ones start at
      score 0; the result is sorted by node. */
  method UpdateEntries(local: Id, hops: map<Id, Id>, previous: seq<Route>) returns (routes: seq<Route>)
    requires Ordered(0, Nodes(previous))
    requires forall r :: r in previous ==> r.level == CalcLevel(local, r.node)
    ensures Entries(local, hops, previous, hops.Keys, routes)
  {
    routes := [];
    var rest := hops;
    for i := 0 to |previous|
      invariant rest == hops - Elems(Nodes(previous)[..i])
      invariant Entries(local, hops, previous, hops.Keys - rest.Keys, routes)
    {
      var r := previous[i];
      assert r in previous;
      assert Nodes(previous)[i] == r.node;
      assert Elems(Nodes(previous)[..i + 1]) == Elems(Nodes(previous)[..i]) + {r.node};
      if r.node in rest {
        ScoreAt(previous, i);
        EntriesInsert(local, hops, previous, hops.Keys - rest.Keys, routes, r.(first := rest[r.node]));
        routes := InsertRoute(r.(first := rest[r.node]), routes);
        assert hops.Keys - (rest - {r.node}).Keys == hops.Keys - rest.Keys + {r.node};
        rest := rest - {r.node};
      }
    }
    assert Nodes(previous)[..|previous|] == Nodes(previous);
    while rest != map[]
      invariant rest.Keys <= hops.Keys - Elems(Nodes(previous))
      invariant forall x :: x in rest ==> rest[x] == hops[x]
      invariant Entries(local, hops, previous, hops.Keys - rest.Keys, routes)
      decreases rest.Keys
    {
      assert rest.Keys != {};
      var x :| x in rest.Keys;
      var r := Route(x, rest[x], CalcLevel(local, x), 0);
      assert x !in Nodes(previous) by { assert x !in Elems(Nodes(previous)); }
      ScoreOfNew(previous, x);
      EntriesInsert(local, hops, previous, hops.Keys - rest.Keys, routes, r);
      routes := InsertRoute(r, routes);
      assert hops.Keys - (rest - {x}).Keys == hops.Keys - rest.Keys + {x};
      rest := rest - {x};
    }
  }

  method UpdateRouteInfos(local: Id, view: View, previous: seq<Route>) returns (routes: seq<Route>)
    requires GoodView(local, view) && Ordered(0, Nodes(previous))
    requires forall r :: r in previous ==> r.level == CalcLevel(local, r.node)
    ensures RouteTable(local, view, routes)
    ensures forall r :: r in routes ==> r.score == ScoreIn(previous, r.node)
  {
    var hops := CollectFirstHops(local, view);
    routes := UpdateEntries(local, hops, previous);
    assert forall r :: r in routes ==> Entry(local, hops, previous, r);
  }

  // ---------------------------------------------------------------- next nodes

  method UpdateNextNodeIDs(local: Id, view: View) returns (front: seq<Id>, back: seq<Id>)
    requires GoodView(local, view)
    ensures NextLists(local, Known(view), front, back)
  {
    hide NextLists;
    var known := Known(view);
    KnownMember(view, local);
    if |view| == 0 {
      front, back := [], [];
      assert known == {};
      ListsFrom(local, known, [], front, back);
    } else if |known| == 1 {
      var x :| x in known;
      SingleElement(known, x);
      front, back := [x], [x];
      ListsFrom(local, known, [x], front, back);
    } else {
      front, back := SplitKnown(local, known);
    }
  }

  lemma ListsFrom(local: Id, known: set<Id>, s: seq<Id>, front: seq<Id>, back: seq<Id>)
    requires RingOrder(local, known, s)
    requires Ends(s, front, back)
    ensures NextLists(local, known, front, back)
  {}

  method SplitKnown(local: Id, known: set<Id>) returns (front: seq<Id>, back: seq<Id>)
    requires local !in known && |known| != 1
    ensures NextLists(local, known, front, back)
  {
    hide NextLists, Ordered, RingOrder, Ends, Reversed;
    var larger := SortNodeIDs(set x | x in known && !(x < local));
    var smaller := SortNodeIDs(set x | x in known && x < local);
    var ids := larger + smaller;
    ConcatRingOrder(local, known, larger, smaller);
    RingOrderCard(local, known, ids);
    if |ids| >= ONE_SIDE_NEXT_COUNT * 2 {
      front := ids[0..ONE_SIDE_NEXT_COUNT];
      back := ids[|ids| - ONE_SIDE_NEXT_COUNT..];
    } else {
      front := ids[0..|ids| / 2];
      back := ids[|ids| / 2..];
    }
    back := Reversed(back);
    SplitEnds(ids, front, back);
    ListsFrom(local, known, ids, front, back);
  }

  lemma SplitEnds(s: seq<Id>, front: seq<Id>, back: seq<Id>)
    requires |s| != 1 && front == s[0..FrontEnd(|s|)] && back == Reversed(s[BackStart(|s|)..])
    ensures Ends(s, front, back)
  {}

  lemma RingOrderCard(local: Id, known: set<Id>, s: seq<Id>)
    requires RingOrder(local, known, s)
    ensures |s| == |known|
  {
    OrderedCard(local, s);
  }

  lemma SingleElement(s: set<Id>, x: Id)
    requires |s| == 1 && x in s
    ensures s == {x}
  {
    assert |s - {x}| == 0;
  }

  /** Numeric order above the local node followed by numeric order below it is clockwise order. */
  lemma ConcatRingOrder(local: Id, known: set<Id>, larger: seq<Id>, smaller: seq<Id>)
    requires local !in known
    requires Ordered(0, larger) && Elems(larger) == set x | x in known && !(x < local)
    requires Ordered(0, smaller) && Elems(smaller) == set x | x in known && x < local
    ensures RingOrder(local, known, larger + smaller)
  {
    var s := larger + smaller;
    forall i | 0 <= i < |larger| ensures larger[i] > local { assert larger[i] in Elems(larger); }
    forall i | 0 <= i < |smaller| ensures smaller[i] < local { assert smaller[i] in Elems(smaller); }
    forall x ensures x in Elems(s) <==> x in known {
      assert x in Elems(s) <==> x in Elems(larger) || x in Elems(smaller);
    }
  }
}

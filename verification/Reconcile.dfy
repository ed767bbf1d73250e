/** The seed's check of a node's reported ring neighbours (seed/controller/controller.go,
    seed/gateway/simple.go), and what its answer means for routing. */
module Reconcile {
  import opened Ring
  import opened RouteTables
  import opened Delivery

  /** Membership in the closed range, wrapping when its ends are out of order. */
  predicate InRange(backward: Id, frontward: Id, x: Id) {
    if backward <= frontward then backward <= x && x <= frontward else x <= frontward || x >= backward
  }

  /** The range is the closed clockwise arc from its backward to its frontward end. */
  lemma RangeIsArc(b: Id, f: Id, x: Id)
    ensures InRange(b, f, x) <==> Cw(b, x) <= Cw(b, f)
  {}

  method GetNodesByRange(nodes: set<Id>, b: Id, f: Id) returns (found: seq<Id>)
    ensures Elems(found) == set x | x in nodes && InRange(b, f, x)
  {
    found := [];
    var todo := nodes;
    while todo != {}
      invariant todo <= nodes
      invariant Elems(found) == set x | x in nodes - todo && InRange(b, f, x)
    {
      var x :| x in todo;
      assert nodes - (todo - {x}) == (nodes - todo) + {x};
      if InRange(b, f, x) {
        assert Elems(found + [x]) == Elems(found) + {x};
        found := found + [x];
      }
      todo := todo - {x};
    }
  }

  predicate IsAlone(registered: set<Id>, self: Id) {
    registered == {} || registered == {self}
  }

  ghost function Surroundings(registered: set<Id>, self: Id, b: Id, f: Id): set<Id> {
    set x | x in registered && InRange(b, f, x) && x != self
  }

  /** The answer: the reported nodes are, without repetition, exactly the other registered nodes
      between the two ends of the report. */
  ghost predicate Matched(registered: set<Id>, self: Id, next: seq<Id>) {
    if next == [] then IsAlone(registered, self)
    else
      var s := Surroundings(registered, self, next[0], next[|next| - 1]);
      Elems(next) == s && |next| == |s|
  }

  method ReconcileNextNodes(registered: set<Id>, self: Id, next: seq<Id>) returns (matched: bool)
    ensures matched <==> Matched(registered, self, next)
  {
    if |next| == 0 {
      return IsAlone(registered, self);
    }
    var found := GetNodesByRange(registered, next[0], next[|next| - 1]);
    var nodes := Others(found, self);
    ghost var s := Surroundings(registered, self, next[0], next[|next| - 1]);
    assert nodes == s;
    if |nodes| != |next| {
      return false;
    }
    matched := CrossOff(next, nodes);
  }

  method Others(found: seq<Id>, self: Id) returns (nodes: set<Id>)
    ensures nodes == Elems(found) - {self}
  {
    nodes := {};
    for i := 0 to |found|
      invariant nodes == Elems(found[..i]) - {self}
    {
      assert Elems(found[..i + 1]) == Elems(found[..i]) + {found[i]};
      if found[i] != self {
        nodes := nodes + {found[i]};
      }
    }
    assert found[..|found|] == found;
  }

  /** The loop that removes each reported node from the registered ones. */
  method CrossOff(next: seq<Id>, s: set<Id>) returns (ok: bool)
    requires |s| == |next|
    ensures ok <==> Elems(next) == s
  {
    var nodes := s;
    for i := 0 to |next|
      invariant Elems(next[..i]) <= s && nodes == s - Elems(next[..i])
      invariant |nodes| == |s| - i
    {
      if next[i] !in nodes {
        RepeatedOrForeign(next, i, s);
        return false;
      }
      assert Elems(next[..i + 1]) == Elems(next[..i]) + {next[i]};
      nodes := nodes - {next[i]};
    }
    assert next[..|next|] == next;
    return nodes == {};
  }

  lemma RepeatedOrForeign(next: seq<Id>, i: nat, s: set<Id>)
    requires i < |next| && (next[i] !in s || next[i] in next[..i])
    ensures !(Elems(next) == s && |next| == |s|)
  {
    if next[i] in s {
      assert Elems(next) == Elems(next[..i] + next[i + 1..]);
      ElemsCard(next[..i] + next[i + 1..]);
    } else {
      assert next[i] in Elems(next);
    }
  }

  lemma {:induction false} ElemsCard(s: seq<Id>)
    ensures |Elems(s)| <= |s|
  {
    if s != [] {
      ElemsCard(s[1..]);
      assert Elems(s) == Elems(s[1..]) + {s[0]};
    }
  }

  /** The list a node reports: backward nodes from the farthest, then forward nodes. */
  function Report(front: seq<Id>, back: seq<Id>): seq<Id> {
    Reversed(back) + front
  }

  lemma ReportShape(s: seq<Id>, front: seq<Id>, back: seq<Id>)
    requires Ends(s, front, back)
    ensures Report(front, back) == s[BackStart(|s|)..] + s[..FrontEnd(|s|)]
  {}

  /** A "matched" answer proves that the node's list heads are its ring neighbours among all registered
      nodes, unless there is nobody else. */
  lemma MatchedImpliesTrueNeighbors(registered: set<Id>, self: Id, known: set<Id>, front: seq<Id>, back: seq<Id>)
    requires self !in known && !IsAlone(registered, self) && NextLists(self, known, front, back)
    requires Matched(registered, self, Report(front, back))
    ensures front != [] && back != []
    ensures IsSuccessor(self, registered - {self}, front[0])
    ensures IsPredecessor(self, registered - {self}, back[0])
  {
    hide Matched, IsSuccessor, IsPredecessor;
    var s :| RingOrder(self, known, s) && Ends(s, front, back);
    OrderedCard(self, s);
    ReportShape(s, front, back);
    MatchedReportIsLong(registered, self, s, front, back);
    MatchedArc(registered, self, s, FrontEnd(|s|), BackStart(|s|));
  }

  /** With one known node the report repeats it, and with none it is empty. */
  lemma MatchedReportIsLong(registered: set<Id>, self: Id, s: seq<Id>, front: seq<Id>, back: seq<Id>)
    requires !IsAlone(registered, self) && Ends(s, front, back) && Matched(registered, self, Report(front, back))
    ensures |s| >= 2
  {
    ReportShape(s, front, back);
    if |s| == 1 {
      assert Report(front, back) == [s[0], s[0]];
      TwiceNeverMatches(registered, self, s[0]);
    }
  }

  /** Core of the argument: the reported arc runs through the node itself, so no registered node can
      lie between the node and the ends of its ordered list. */
  lemma MatchedArc(registered: set<Id>, self: Id, s: seq<Id>, h: nat, t: nat)
    requires Ordered(self, s) && self !in s && 1 <= h <= t < |s|
    requires Matched(registered, self, s[t..] + s[..h])
    ensures IsSuccessor(self, registered - {self}, s[0])
    ensures IsPredecessor(self, registered - {self}, s[|s| - 1])
  {
    var r := s[t..] + s[..h];
    assert r[0] == s[t] && r[|r| - 1] == s[h - 1];
    forall y | y in registered - {self}
      ensures Cw(self, s[0]) <= Cw(self, y) && Cw(s[|s| - 1], self) <= Cw(y, self)
    {
      if Cw(self, y) < Cw(self, s[0]) || Cw(self, s[|s| - 1]) < Cw(self, y) {
        assert Cw(self, s[0]) <= Cw(self, s[h - 1]) < Cw(self, s[t]) <= Cw(self, s[|s| - 1]);
        RangeIsArc(s[t], s[h - 1], y);
        assert y in Elems(r);
        var i :| 0 <= i < |s| && s[i] == y;
        assert false;
      }
    }
    assert s[0] == r[|s| - t] && s[|s| - 1] == r[|s| - t - 1];
    assert s[0] in Elems(r) && s[|s| - 1] in Elems(r);
  }

  /** A node that knows exactly the other registered nodes is answered "matched" unless there is
      exactly one of them: then its two lists repeat that node and the answer is false. */
  lemma FullKnowledgeMatches(registered: set<Id>, self: Id, known: set<Id>, front: seq<Id>, back: seq<Id>)
    requires known == registered - {self} && NextLists(self, known, front, back)
    ensures Matched(registered, self, Report(front, back)) <==> |known| != 1
  {
    hide Matched, Ordered, Report;
    var s :| RingOrder(self, known, s) && Ends(s, front, back);
    OrderedCard(self, s);
    ReportShape(s, front, back);
    if |s| == 0 {
      EmptyReportMatches(registered, self);
      assert Report(front, back) == [];
    } else if |s| == 1 {
      assert Report(front, back) == [s[0], s[0]];
      TwiceNeverMatches(registered, self, s[0]);
    } else {
      FullReportMatches(registered, self, s);
    }
  }

  lemma EmptyReportMatches(registered: set<Id>, self: Id)
    requires registered - {self} == {}
    ensures Matched(registered, self, [])
  {
    assert registered == {} || registered == {self};
  }

  lemma TwiceNeverMatches(registered: set<Id>, self: Id, x: Id)
    ensures !Matched(registered, self, [x, x])
  {
    assert Elems([x, x]) == {x};
  }

  lemma FullReportMatches(registered: set<Id>, self: Id, s: seq<Id>)
    requires RingOrder(self, registered - {self}, s) && |s| >= 2
    ensures Matched(registered, self, s[BackStart(|s|)..] + s[..FrontEnd(|s|)])
  {
    var n := |s|;
    var h, t := FrontEnd(n), BackStart(n);
    var r := s[t..] + s[..h];
    var b, f := s[t], s[h - 1];
    assert r[0] == b && r[|r| - 1] == f;
    forall x | x in r ensures x in Surroundings(registered, self, b, f) {
      var i :| 0 <= i < n && s[i] == x && (i < h || t <= i);
      assert x in Elems(s);
      ArcMember(self, s, h, t, i);
    }
    forall x | x in Surroundings(registered, self, b, f) ensures x in r {
      assert x in Elems(s);
      var i :| 0 <= i < n && s[i] == x;
      ArcMember(self, s, h, t, i);
      assert if i < h then r[n - t + i] == x else r[i - t] == x;
    }
    OrderedFrom(self, s, h, t);
    OrderedCard(b, r);
  }

  lemma ArcMember(self: Id, s: seq<Id>, h: nat, t: nat, i: nat)
    requires Ordered(self, s) && 1 <= h <= t < |s| && i < |s|
    ensures InRange(s[t], s[h - 1], s[i]) <==> i < h || t <= i
  {
    RangeIsArc(s[t], s[h - 1], s[i]);
  }

  lemma OrderedFrom(self: Id, s: seq<Id>, h: nat, t: nat)
    requires Ordered(self, s) && 1 <= h <= t < |s|
    ensures Ordered(s[t], s[t..] + s[..h])
  {}

  ghost predicate NodeMatched(n: Network, v: Id) {
    && v in n.links && v in n.tables
    && Matched(n.links.Keys, v, Report(n.tables[v].front, n.tables[v].back))
  }

  /** Every node has been answered "matched". */
  ghost predicate AllMatched(n: Network) {
    forall v {:trigger NodeMatched(n, v)} :: v in n.links ==> NodeMatched(n, v)
  }

  /** End to end: once the seed has answered "matched" to everybody, packets addressed to a point of
      the ring stop at its unique predecessor, and explicit ones reach their addressee exactly when
      it exists, all within twice as many hops as there are nodes. */
  lemma MatchedNetworkDelivers(n: Network, v: Id, dst: Id)
    requires AtRest(n) && AllMatched(n) && v in n.links
    ensures var near := Deliver(n, v, dst, false);
            near.Accepted? && near.hops <= 2 * |n.links| && IsNearest(n.links.Keys, dst, near.at)
    ensures var o := Deliver(n, v, dst, true);
            o.hops <= 2 * |n.links| && (o.Accepted? <==> dst in n.links) && (o.Accepted? ==> o.at == dst)
  {
    hide Deliver, IsNearest;
    MatchedGivesNeighbors(n);
    NearbyDelivery(n, v, dst);
    NearbyDeliveryIsExact(n, v, dst);
    ExplicitDelivery(n, v, dst);
  }

  lemma MatchedGivesNeighbors(n: Network)
    requires AtRest(n) && AllMatched(n)
    ensures TrueNeighbors(n)
  {
    hide RouteTable, Matched, IsSuccessor, IsPredecessor, NextLists, Known;
    forall v | v in n.links && v in n.tables && n.links.Keys != {v}
      ensures n.tables[v].front != [] && n.tables[v].back != []
      ensures IsSuccessor(v, n.links.Keys - {v}, n.tables[v].front[0])
      ensures IsPredecessor(v, n.links.Keys - {v}, n.tables[v].back[0])
    {
      assert NodeAtRest(n, v) && NodeMatched(n, v);
      var view, t := ViewOf(n.links, v), n.tables[v];
      KnownMember(view, v);
      MatchedImpliesTrueNeighbors(n.links.Keys, v, Known(view), t.front, t.back);
    }
  }
}

/** One node's one-dimensional routing state and the operations that change it
    (node/internal/network/routing/routing_1d.go). */
module Routing1D {
  import opened NodeIds
  import opened Ring
  import opened RouteTables
  import opened TableUpdate
  import opened Reconcile

  datatype Info = Info(timestamp: int, level: int, seconds: set<Id>, oddScore: int, scoreByRecv: int)

  const REQUIRE_UPDATE_CONNECTIONS := 1
  const REQUIRE_EXCHANGE_ROUTING := 2

  function InfoView(infos: map<Id, Info>): View {
    map k | k in infos :: infos[k].seconds
  }

  /** The nodes a routing packet lists. */
  function Advertised(records: map<string, int>): set<Id> {
    set k | k in records && ParseKey(k).Some? :: ParseKey(k).value
  }

  /** Looking a node up by its printed key and parsing the keys agree. */
  lemma AdvertisedByKey(records: map<string, int>, x: Id)
    ensures x in Advertised(records) <==> Key(x) in records
  {
    KeyRoundTrip(x);
    if x in Advertised(records) {
      var k :| k in records && ParseKey(k).Some? && ParseKey(k).value == x;
      ParseKeyRoundTrip(k);
    }
  }

  /** The score a packet gives the local node, or 0. */
  function OddScore(local: Id, records: map<string, int>): int {
    if Key(local) in records then records[Key(local)] else 0
  }

  ghost predicate ScoresKept(before: seq<Route>, after: seq<Route>) {
    forall r :: r in after ==> r.score == ScoreIn(before, r.node)
  }

  lemma SameScores(routes: seq<Route>)
    requires Ordered(0, Nodes(routes))
    ensures ScoresKept(routes, routes)
  {
    forall i | 0 <= i < |routes| ensures routes[i].score == ScoreIn(routes, routes[i].node) {
      ScoreAt(routes, i);
    }
  }

  ghost predicate NonNegative(routes: seq<Route>) {
    forall r :: r in routes ==> r.score >= 0
  }

  lemma {:induction false} ScoreInNonNegative(routes: seq<Route>, x: Id)
    requires NonNegative(routes)
    ensures ScoreIn(routes, x) >= 0
  {
    if routes != [] {
      assert routes[0] in routes;
      assert forall r :: r in routes[1..] ==> r in routes;
      ScoreInNonNegative(routes[1..], x);
    }
  }

  /** Scores that are kept stay non-negative. */
  lemma KeptNonNegative(before: seq<Route>, after: seq<Route>)
    requires NonNegative(before) && ScoresKept(before, after)
    ensures NonNegative(after)
  {
    forall r | r in after ensures r.score >= 0 { ScoreInNonNegative(before, r.node); }
  }

  /** The chosen entry scores one, unless it is the last one reached without the scan. */
  function Scored(routes: seq<Route>, dst: Id): seq<Route>
    requires routes != []
  {
    var c := Candidate(routes, dst);
    if dst < routes[|routes| - 1].node then routes[c := routes[c].(score := routes[c].score + 1)] else routes
  }

  /** An entry for `x` scores when a packet to `dst` is sent along it. */
  ghost predicate Scores(view: View, routes: seq<Route>, dst: Id, x: Id)
    requires routes != []
  {
    dst < routes[|routes| - 1].node && IsNearest(Known(view), dst, x)
  }

  predicate ConnectedToNextNodes(infos: map<Id, Info>, front: seq<Id>, back: seq<Id>): (r: bool)
    ensures r <==> Elems(front) + Elems(back) <= infos.Keys
  {
    (forall x :: x in front ==> x in infos) && (forall x :: x in back ==> x in infos)
  }

  /** The infos after an update of the connections: known neighbours with all they advertised, new
      ones without. */
  ghost predicate Reconnected(local: Id, before: map<Id, Info>, connections: set<Id>, now: int, after: map<Id, Info>) {
    && after.Keys == connections
    && forall k :: k in connections ==>
         after[k] == if k in before then before[k] else Info(now, CalcLevel(local, k), {}, 0, 0)
  }

  /** The infos after a routing packet from `src` that lists the nodes `listed`: ignored unless `src` is
      a neighbour, and otherwise replacing what it advertised before. */
  ghost predicate Received(local: Id, before: map<Id, Info>, src: Id, listed: set<Id>, after: map<Id, Info>) {
    && after.Keys == before.Keys
    && (forall k :: k in after && k != src ==> after[k] == before[k])
    && (src in after ==> after[src] == before[src].(seconds := listed - {local}, oddScore := after[src].oddScore))
  }

  /** The flag is the seed's answer about the current lists if the last call succeeded, `asked` being
      the nodes registered then. */
  ghost predicate Flagged(local: Id, front: seq<Id>, back: seq<Id>, matched: bool, asked: Option<set<Id>>) {
    asked.Some? ==> matched == Matched(asked.value, local, Report(front, back))
  }

  /** Of the former next nodes those that are no longer connected. */
  function Lost(previous: seq<Id>, infos: map<Id, Info>): seq<Id> {
    if previous == [] then []
    else
      var n := |previous| - 1;
      Lost(previous[..n], infos) + if previous[n] in infos then [] else [previous[n]]
  }

  /** Exactly the former next nodes that are not connected, as often as they were listed. */
  lemma {:induction false} LostExactly(previous: seq<Id>, infos: map<Id, Info>, x: Id)
    ensures multiset(Lost(previous, infos))[x] == if x in infos then 0 else multiset(previous)[x]
  {
    if previous != [] {
      var n := |previous| - 1;
      LostExactly(previous[..n], infos, x);
      assert previous == previous[..n] + [previous[n]];
    }
  }

  /** The score of one entry grows, that of the nearest known node before `dst`, and only when the
      scan reaches it. */
  lemma ScoredAt(local: Id, view: View, routes: seq<Route>, dst: Id)
    requires RouteTable(local, view, routes) && routes != []
    ensures |Scored(routes, dst)| == |routes|
    ensures forall i :: 0 <= i < |routes| ==>
              Scored(routes, dst)[i] ==
              routes[i].(score := routes[i].score + if Scores(view, routes, dst, routes[i].node) then 1 else 0)
  {
    hide FirstHop, Known, Candidate, IsNearest;
    if dst < routes[|routes| - 1].node {
      var c := Candidate(routes, dst);
      assert routes[c].node in Known(view) by { assert Nodes(routes)[c] in Elems(Nodes(routes)); }
      NearestExists(Known(view), dst);
      var x :| IsNearest(Known(view), dst, x);
      SelectedRoute(view, local, routes, dst, x);
      forall i | 0 <= i < |routes| ensures IsNearest(Known(view), dst, routes[i].node) <==> i == c {
        if IsNearest(Known(view), dst, routes[i].node) {
          SelectedRoute(view, local, routes, dst, routes[i].node);
          assert Nodes(routes)[i] == routes[i].node && Nodes(routes)[c] == routes[c].node;
        }
      }
    }
  }

  class Node {
    const local: Id
    var matched: bool
    /** The nodes registered at the seed when it last answered; none if the last call failed. */
    ghost var asked: Option<set<Id>>
    var front: seq<Id>
    var back: seq<Id>
    var infos: map<Id, Info>
    var routes: seq<Route>

    ghost predicate Valid()
      reads this
    {
      && TablesFor(local, InfoView(infos), Tables(front, back, routes))
      && (forall k :: k in infos ==> infos[k].level == CalcLevel(local, k) && infos[k].scoreByRecv >= 0)
      && NonNegative(routes) && Flagged(local, front, back, matched, asked)
    }

    constructor (local: Id)
      ensures Valid() && this.local == local && infos == map[] && !matched && asked == None
    {
      this.local, asked := local, None;
      matched, front, back, infos, routes := false, [], [], map[], [];
      new;
      EmptyTables(local);
      assert InfoView(infos) == map[];
    }

    static lemma EmptyTables(local: Id)
      ensures TablesFor(local, map[], Tables([], [], []))
    {
      ListsFrom(local, {}, [], [], []);
      assert Known(map[]) == {};
      assert Elems(Nodes([])) == {};
    }

    /** Rebuilds both tables from the neighbour infos and reports the lists to the seed, with the former
        next nodes that are lost. `seed` are the nodes registered there, or none if the call fails. */
    method Rebuild(seed: Option<set<Id>>) returns (lost: seq<Id>)
      requires GoodView(local, InfoView(infos)) && Ordered(0, Nodes(routes))
      requires forall r :: r in routes ==> r.level == CalcLevel(local, r.node)
      requires NonNegative(routes)
      modifies this`routes, this`front, this`back, this`matched, this`asked
      ensures TablesFor(local, InfoView(infos), Tables(front, back, routes))
      ensures ScoresKept(old(routes), routes) && NonNegative(routes)
      ensures asked == seed && Flagged(local, front, back, matched, asked)
      ensures seed.None? ==> matched == old(matched)
      ensures lost == Lost(old(back) + old(front), infos)
    {
      hide Matched, Report, Lost, NextLists, RouteTable;
      ghost var before := routes;
      var previous := back + front;
      routes := UpdateRouteInfos(local, InfoView(infos), routes);
      KeptNonNegative(before, routes);
      front, back := UpdateNextNodeIDs(local, InfoView(infos));
      lost := UpdateNextNodeMatched(previous, seed);
    }

    /** Asks the seed about the current lists; a failed call leaves the flag as it was. */
    method UpdateNextNodeMatched(previous: seq<Id>, seed: Option<set<Id>>) returns (lost: seq<Id>)
      modifies this`matched, this`asked
      ensures asked == seed && Flagged(local, front, back, matched, asked)
      ensures seed.None? ==> matched == old(matched)
      ensures lost == Lost(previous, infos)
    {
      hide Matched, Report;
      lost := [];
      for i := 0 to |previous|
        invariant lost == Lost(previous[..i], infos)
      {
        assert previous[..i + 1][..i] == previous[..i];
        if previous[i] !in infos {
          lost := lost + [previous[i]];
        }
      }
      assert previous[..|previous|] == previous;
      asked := seed;
      if seed.Some? {
        matched := ReconcileNextNodes(seed.value, local, Report(front, back));
      }
    }

    /** The periodic pass asks the seed again only while the flag is false: a flag that a failed call has
        left true stays, whatever the lists are now. */
    method SubRoutine(seed: Option<set<Id>>)
      requires Valid()
      modifies this`matched, this`asked
      ensures Valid()
      ensures old(matched) ==> matched && asked == old(asked)
      ensures !old(matched) ==> asked == seed && (seed.None? ==> !matched)
    {
      hide TablesFor, Flagged;
      if !matched {
        var _ := UpdateNextNodeMatched([], seed);
      }
    }

    /** Adds the new connections, then deletes the nodes that are no longer connected. */
    static method MergeConnections(local: Id, before: map<Id, Info>, connections: set<Id>, now: int)
      returns (infos: map<Id, Info>, updated: bool)
      ensures infos.Keys == connections
      ensures forall k :: k in connections ==>
                infos[k] == if k in before then before[k] else Info(now, CalcLevel(local, k), {}, 0, 0)
      ensures updated <==> connections != before.Keys
      ensures !updated ==> infos == before
    {
      infos, updated := before, false;
      var todo := connections;
      while todo != {}
        invariant todo <= connections
        invariant infos.Keys == before.Keys + (connections - todo)
        invariant forall k :: k in infos ==>
                    infos[k] == if k in before then before[k] else Info(now, CalcLevel(local, k), {}, 0, 0)
        invariant updated <==> infos.Keys != before.Keys
        invariant !updated ==> infos == before
      {
        var k :| k in todo;
        if k !in infos {
          infos := infos[k := Info(now, CalcLevel(local, k), {}, 0, 0)];
          updated := true;
        }
        todo := todo - {k};
      }
      todo := infos.Keys;
      while todo != {}
        invariant todo <= infos.Keys
        invariant connections <= infos.Keys <= connections + before.Keys
        invariant infos.Keys - todo <= connections
        invariant forall k :: k in infos ==>
                    infos[k] == if k in before then before[k] else Info(now, CalcLevel(local, k), {}, 0, 0)
        invariant !updated ==> infos == before
        invariant updated ==> connections != before.Keys
      {
        var k :| k in todo;
        if k !in connections {
          infos := infos - {k};
          updated := true;
        }
        todo := todo - {k};
      }
    }

    static lemma MergedView(local: Id, before: map<Id, Info>, after: map<Id, Info>)
      requires GoodView(local, InfoView(before)) && local !in after
      requires forall k :: k in after ==> if k in before then after[k] == before[k] else after[k].seconds == {}
      ensures GoodView(local, InfoView(after))
    {
      var v, v' := InfoView(before), InfoView(after);
      forall k | k in v' ensures local !in v'[k] {
        if k in before { assert v'[k] == v[k]; }
      }
    }

    static lemma TableFacts(local: Id, view: View, routes: seq<Route>)
      requires RouteTable(local, view, routes)
      ensures Ordered(0, Nodes(routes))
      ensures forall r :: r in routes ==> r.level == CalcLevel(local, r.node)
    {}

    /** Keeps exactly the connected nodes: known ones with all they advertised, new ones empty. */
    method UpdateNodeConnections(connections: set<Id>, now: int, seed: Option<set<Id>>)
      returns (action: int, lost: seq<Id>)
      requires Valid() && local !in connections
      modifies this
      ensures Valid() && Reconnected(local, old(infos), connections, now, infos)
      ensures ScoresKept(old(routes), routes)
      ensures connections == old(infos).Keys ==> action == 0 && lost == [] && unchanged(this)
      ensures connections != old(infos).Keys ==>
                action == REQUIRE_EXCHANGE_ROUTING +
                          (if ConnectedToNextNodes(infos, front, back) then 0 else REQUIRE_UPDATE_CONNECTIONS) &&
                asked == seed && (seed.None? ==> matched == old(matched)) &&
                lost == Lost(old(back) + old(front), infos)
    {
      hide NextLists, RouteTable, Flagged, Lost;
      assert Ordered(0, Nodes(routes)) && forall r :: r in routes ==> r.level == CalcLevel(local, r.node) by {
        TableFacts(local, InfoView(infos), routes);
      }
      var merged, updated := MergeConnections(local, infos, connections, now);
      if !updated {
        SameScores(routes);
        return 0, [];
      }
      MergedView(local, infos, merged);
      infos := merged;
      lost := Rebuild(seed);
      if ConnectedToNextNodes(infos, front, back) {
        action := REQUIRE_EXCHANGE_ROUTING;
      } else {
        action := REQUIRE_EXCHANGE_ROUTING + REQUIRE_UPDATE_CONNECTIONS;
      }
    }

    /** Replaces what a neighbour advertises. An unparsable key makes it return an error, with the
        neighbour's set possibly half changed and the tables left as they were. */
    method RecvRoutingPacket(src: Id, records: map<string, int>, seed: Option<set<Id>>) returns (r: Option<int>)
      requires Valid() && src != local
      modifies this
      ensures src !in old(infos) ==> r == Some(0) && unchanged(this)
      ensures infos.Keys == old(infos).Keys
      ensures forall k :: k in infos && k != src ==> infos[k] == old(infos)[k]
      ensures src in old(infos) ==> (r.Some? <==> forall k :: k in records ==> ParseKey(k).Some?)
      ensures r.Some? ==> Valid() && ScoresKept(old(routes), routes)
      ensures r.Some? ==> Received(local, old(infos), src, Advertised(records), infos)
      ensures r.Some? && src in infos ==> infos[src].oddScore == OddScore(local, records)
      ensures r.Some? && src in infos && infos[src].seconds == old(infos)[src].seconds ==>
                r.value == 0 && routes == old(routes) && front == old(front) && back == old(back) &&
                matched == old(matched) && asked == old(asked)
      ensures r.Some? && src in infos && infos[src].seconds != old(infos)[src].seconds ==>
                r.value == (if ConnectedToNextNodes(infos, front, back) then 0 else REQUIRE_UPDATE_CONNECTIONS) &&
                asked == seed && (seed.None? ==> matched == old(matched))
      ensures r.None? ==>
                routes == old(routes) && front == old(front) && back == old(back) &&
                matched == old(matched) && asked == old(asked) && GoodView(local, InfoView(infos))
    {
      hide NextLists, RouteTable, Advertised, ParseKey, InfoView, OddScore, Flagged, Lost;
      TableFacts(local, InfoView(infos), routes);
      if src !in infos {
        SameScores(routes);
        return Some(0);
      }
      InfoIsGood(local, infos, src);
      var info, updated, ok := ApplyRecords(local, infos[src], records);
      SecondsChange(local, infos, src, info);
      infos := infos[src := info];
      if !ok {
        return None;
      }
      if !updated {
        SameScores(routes);
        return Some(0);
      }
      var _ := Rebuild(seed);
      r := Some(if ConnectedToNextNodes(infos, front, back) then 0 else REQUIRE_UPDATE_CONNECTIONS);
    }

    static method ApplyRecords(local: Id, before: Info, records: map<string, int>)
      returns (info: Info, updated: bool, ok: bool)
      requires local !in before.seconds
      ensures info == before.(seconds := info.seconds, oddScore := info.oddScore)
      ensures ok <==> forall k :: k in records ==> ParseKey(k).Some?
      ensures local !in info.seconds
      ensures ok ==> info.seconds == Advertised(records) - {local} && info.oddScore == OddScore(local, records)
      ensures ok ==> (updated <==> info.seconds != before.seconds)
    {
      hide Advertised, ParseKey, OddScore;
      var kept, dropped := DropUnlisted(before.seconds, records);
      var seconds, oddScore, added, allParsed := AddListed(local, kept, records);
      ok, updated := allParsed, dropped || added;
      info := before.(seconds := seconds);
      if ok {
        info := info.(oddScore := oddScore);
        ChangedIff(before.seconds, kept, seconds, Advertised(records));
      }
    }

    static lemma ChangedIff(before: set<Id>, kept: set<Id>, after: set<Id>, listed: set<Id>)
      requires kept == before * listed && kept <= after <= listed
      ensures after != before <==> kept != before || after != kept
    {}

    static lemma InfoIsGood(local: Id, infos: map<Id, Info>, src: Id)
      requires GoodView(local, InfoView(infos)) && src in infos
      ensures local !in infos[src].seconds
    {
      assert InfoView(infos)[src] == infos[src].seconds;
    }

    static lemma SecondsChange(local: Id, before: map<Id, Info>, src: Id, i: Info)
      requires GoodView(local, InfoView(before)) && src in before && local !in i.seconds
      ensures GoodView(local, InfoView(before[src := i]))
      ensures i.seconds == before[src].seconds ==> InfoView(before[src := i]) == InfoView(before)
    {
      var v, v' := InfoView(before), InfoView(before[src := i]);
      forall k | k in v' ensures local !in v'[k] {
        if k != src { assert v'[k] == v[k]; }
      }
    }

    static method DropUnlisted(seconds: set<Id>, records: map<string, int>) returns (kept: set<Id>, dropped: bool)
      ensures kept == seconds * Advertised(records)
      ensures !dropped ==> kept == seconds
      ensures dropped ==> kept != seconds
    {
      kept, dropped := seconds, false;
      var todo := seconds;
      while todo != {}
        invariant todo <= kept <= seconds
        invariant forall x :: x in seconds && x !in todo ==> (x in kept <==> x in Advertised(records))
        invariant dropped <==> kept != seconds
      {
        var x :| x in todo;
        AdvertisedByKey(records, x);
        if Key(x) !in records {
          kept := kept - {x};
          dropped := true;
        }
        todo := todo - {x};
      }
    }

    static method AddListed(local: Id, kept: set<Id>, records: map<string, int>)
      returns (seconds: set<Id>, oddScore: int, added: bool, ok: bool)
      requires local !in kept && kept <= Advertised(records)
      ensures ok <==> forall k :: k in records ==> ParseKey(k).Some?
      ensures local !in seconds
      ensures ok ==> seconds == Advertised(records) - {local} && oddScore == OddScore(local, records)
      ensures added <==> seconds != kept
      ensures kept <= seconds <= Advertised(records)
    {
      hide Key;
      KeyRoundTrip(local);
      seconds, oddScore, added, ok := kept, 0, false, true;
      var todo := records.Keys;
      while todo != {}
        invariant todo <= records.Keys
        invariant kept <= seconds <= Advertised(records) - {local}
        invariant forall k :: k in records && k !in todo ==>
                    ParseKey(k).Some? && (ParseKey(k).value == local || ParseKey(k).value in seconds)
        invariant added <==> seconds != kept
        invariant oddScore == if Key(local) in records && Key(local) !in todo then records[Key(local)] else 0
      {
        var k :| k in todo;
        ParseKeyRoundTrip(k);
        var id := ParseKey(k);
        if id.None? {
          ok := false;
          return;
        }
        assert id.value in Advertised(records);
        if id.value == local {
          oddScore := records[k];
        } else if id.value !in seconds {
          seconds := seconds + {id.value};
          added := true;
        }
        todo := todo - {k};
      }
    }

    /** The decision for one packet. The scan ends inside the loop, so the source's panic after it is
        unreachable; only the score of the chosen entry changes. */
    method GetNextStep(dst: Dest, isExplicit: bool) returns (step: Step)
      requires Valid()
      modifies this`routes
      ensures Valid() && Usable(local, old(Tables(front, back, routes)))
      ensures step == NextStep(local, old(Tables(front, back, routes)), dst, isExplicit)
      ensures step.Multicast? <==> dst.ToNeighborhoods?
      ensures dst.ToLocal? || dst == ToNode(local) ==> step.Accept?
      ensures step.Drop? <==> dst.ToNode? && dst.id != local && isExplicit && InGap(local, front, back, dst.id)
      ensures dst.ToNode? && dst.id != local ==>
                (step.Accept? <==> !isExplicit && (front == [] || Cw(local, dst.id) < Cw(local, front[0])))
      ensures step.Forward? ==> step.hop in infos && dst.ToNode? && old(routes) != []
      ensures step.Forward? ==>
                exists x :: IsNearest(Known(InfoView(infos)), dst.id, x) && FirstHop(InfoView(infos), x, step.hop)
      ensures !step.Forward? ==> routes == old(routes)
      ensures step.Forward? ==> |routes| == |old(routes)| && forall i :: 0 <= i < |routes| ==>
                routes[i] == old(routes)[i].(score := old(routes)[i].score +
                  if Scores(InfoView(infos), old(routes), dst.id, routes[i].node) then 1 else 0)
    {
      hide FirstHop, NextLists, RouteTable, InfoView, CalcLevel, GoodView, Candidate, Scored, IsNearest, InGap, Scores;
      TablesAreUsable(local, InfoView(infos), Tables(front, back, routes));
      StepDecides(local, InfoView(infos), Tables(front, back, routes), dst, isExplicit);
      if routes != [] && dst.ToNode? { ScoredAt(local, InfoView(infos), routes, dst.id); }
      if dst.ToLocal? || dst == ToNode(local) {
        return Accept;
      }
      if dst.ToNeighborhoods? {
        return Multicast;
      }
      if |front| + |back| == 0 {
        return if isExplicit then Drop else Accept;
      }
      if IsBetween(local, front[0], dst.id) {
        return if isExplicit then Drop else Accept;
      }
      if IsBetween(back[0], local, dst.id) {
        if isExplicit && back[0] != dst.id {
          return Drop;
        }
      }
      var c := Scan(dst.id);
      HopIsNeighbor(local, infos, routes, c);
      step := Forward(routes[c].first);
    }

    static lemma HopIsNeighbor(local: Id, infos: map<Id, Info>, routes: seq<Route>, c: nat)
      requires RouteTable(local, InfoView(infos), routes) && c < |routes|
      ensures routes[c].first in infos
    {
      assert routes[c] in routes;
    }

    method Scan(dst: Id) returns (c: nat)
      requires routes != []
      requires RouteTable(local, InfoView(infos), routes)
      modifies this`routes
      ensures |routes| == |old(routes)| && c == Candidate(old(routes), dst) && c < |routes|
      ensures routes[c].first == old(routes)[c].first
      ensures RouteTable(local, InfoView(infos), routes) && Nodes(routes) == Nodes(old(routes))
      ensures NonNegative(old(routes)) ==> NonNegative(routes)
      ensures routes == Scored(old(routes), dst)
    {
      hide RouteTable;
      var last := |routes| - 1;
      if !(dst < routes[last].node) {
        return last;
      }
      c := last;
      var i := 0;
      while !(dst < routes[i].node)
        invariant 0 <= i < |routes|
        invariant c == if i == 0 then last else i - 1
        invariant ScanFrom(routes, dst, 0, last) == ScanFrom(routes, dst, i, c)
        decreases |routes| - i
      {
        c := i;
        i := i + 1;
      }
      Rescore(local, InfoView(infos), routes, c);
      routes := routes[c := routes[c].(score := routes[c].score + 1)];
    }

    static lemma Rescore(local: Id, view: View, routes: seq<Route>, c: nat)
      requires RouteTable(local, view, routes) && c < |routes|
      ensures var routes' := routes[c := routes[c].(score := routes[c].score + 1)];
              Nodes(routes') == Nodes(routes) && RouteTable(local, view, routes')
    {
      hide FirstHop;
      var routes' := routes[c := routes[c].(score := routes[c].score + 1)];
      assert Nodes(routes') == Nodes(routes);
      forall r | r in routes' ensures FirstHop(view, r.node, r.first) && r.level == CalcLevel(local, r.node) {
        var i :| 0 <= i < |routes'| && routes'[i] == r;
        assert routes[i] in routes;
      }
    }

    /** The routing packet lists exactly the neighbours, with the scores of what they sent. */
    method SetupRoutingPacket() returns (records: map<string, int>)
      ensures forall k :: k in records ==> ParseKey(k).Some?
      ensures Advertised(records) == infos.Keys
      ensures forall k :: k in infos ==> Key(k) in records && records[Key(k)] == infos[k].scoreByRecv
    {
      hide Key, ParseKey;
      records := map[];
      var todo := infos.Keys;
      while todo != {}
        invariant todo <= infos.Keys
        invariant forall s :: s in records ==> ParseKey(s).Some? && ParseKey(s).value in infos.Keys - todo
        invariant forall k :: k in infos && k !in todo ==> Key(k) in records && records[Key(k)] == infos[k].scoreByRecv
      {
        var k :| k in todo;
        KeyRoundTrip(k);
        forall j | j in infos && j !in todo ensures Key(j) != Key(k) { KeyRoundTrip(j); }
        records := records[Key(k) := infos[k].scoreByRecv];
        todo := todo - {k};
      }
      forall x ensures x in Advertised(records) <==> x in infos { AdvertisedByKey(records, x); KeyRoundTrip(x); }
    }

    method CountRecvPacket(from: Id)
      requires Valid()
      modifies this`infos
      ensures Valid() && infos.Keys == old(infos).Keys
      ensures forall k :: k in infos ==>
                infos[k] == if k != from then old(infos)[k]
                            else old(infos)[k].(scoreByRecv := old(infos)[k].scoreByRecv + 1)
    {
      hide TablesFor;
      if from in infos {
        assert InfoView(infos[from := infos[from].(scoreByRecv := infos[from].scoreByRecv + 1)]) == InfoView(infos);
        infos := infos[from := infos[from].(scoreByRecv := infos[from].scoreByRecv + 1)];
      }
    }
  }
}

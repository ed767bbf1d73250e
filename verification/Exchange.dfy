/** The exchange of routing packets between neighbours: over every run, when a neighbour's list is known
    (node/internal/network/routing/routing.go). */
module Exchange {
  import opened Ring
  import RouteTables
  import opened Routing1D
  import opened Overlay

  /** The infos of all nodes, the nodes that have yet to send their list, the lists on their way from one
      node to another, oldest first, and the pairs `(f, v)` such that `v` has taken a list from `f` since
      it last added `f` to its neighbours. */
  datatype Net = Net(
    infos: map<Id, map<Id, Info>>,
    due: set<Id>,
    flight: map<(Id, Id), seq<set<Id>>>,
    heard: set<(Id, Id)>)

  /** A node's connections change; a node that is due, having the given tables, sends its list to the
      neighbourhood; the oldest list on its way from one node to another arrives. */
  datatype Step =
    | Reconnect(v: Id, connections: set<Id>)
    | Broadcast(v: Id, tables: RouteTables.Tables)
    | Arrive(f: Id, v: Id)

  /** Where a packet to the neighbourhood goes by the decision about its next step. */
  function Recipients(v: Id, tables: RouteTables.Tables, links: set<Id>): set<Id>
    requires RouteTables.Usable(v, tables)
  {
    match RouteTables.NextStep(v, tables, RouteTables.ToNeighborhoods, false)
    case Multicast => links
    case Forward(hop) => {hop} * links
    case _ => {}
  }

  function Queue(n: Net, f: Id, v: Id): seq<set<Id>> {
    if (f, v) in n.flight then n.flight[(f, v)] else []
  }

  ghost predicate Enabled(n: Net, s: Step) {
    match s
    case Reconnect(v, connections) => v in n.infos && v !in connections && connections <= n.infos.Keys
    case Broadcast(v, tables) => v in n.due && v in n.infos && RouteTables.Usable(v, tables)
    case Arrive(f, v) => v in n.infos && Queue(n, f, v) != []
  }

  /** One step, its effect on a node being that of the node's operations. */
  ghost predicate Next(n: Net, s: Step, n': Net) {
    && Enabled(n, s) && n'.infos.Keys == n.infos.Keys
    && match s
       case Reconnect(v, connections) =>
         && n'.infos == n.infos[v := n'.infos[v]]
         && (exists now :: Reconnected(v, n.infos[v], connections, now, n'.infos[v]))
         && n'.due == (if connections == n.infos[v].Keys then n.due else n.due + {v})
         && n'.flight == n.flight
         && n'.heard == set p | p in n.heard && (p.1 == v ==> p.0 in connections && p.0 in n.infos[v])
       case Broadcast(v, tables) =>
         && n'.infos == n.infos && n'.heard == n.heard && n'.due == n.due - {v}
         && forall f, u :: Queue(n', f, u) ==
              Queue(n, f, u) + if f == v && u in Recipients(v, tables, n.infos[v].Keys) then [n.infos[v].Keys] else []
       case Arrive(f, v) =>
         && n'.infos == n.infos[v := n'.infos[v]]
         && Received(v, n.infos[v], f, Queue(n, f, v)[0], n'.infos[v])
         && n'.due == n.due
         && (forall g, u :: Queue(n', g, u) == if g == f && u == v then Queue(n, f, v)[1..] else Queue(n, g, u))
         && n'.heard == (if f in n.infos[v] then n.heard + {(f, v)} else n.heard)
  }

  ghost predicate Start(n: Net) {
    (forall v :: v in n.infos ==> n.infos[v] == map[]) && n.due == {} && n.flight == map[] && n.heard == {}
  }

  ghost predicate Run(tr: seq<Net>, steps: seq<Step>) {
    |tr| == |steps| + 1 && Start(tr[0]) && forall k :: 0 <= k < |steps| ==> Next(tr[k], steps[k], tr[k + 1])
  }

  // ---------------------------------------------------------------- invariant

  /** What `v` knows of its neighbour `f`. Nothing before it has taken a list; and unless `f` is due, the
      youngest list on its way is the present one, or if none is, `v` has it. */
  ghost predicate Told(n: Net, f: Id, v: Id) {
    && ((f, v) in n.heard ==> v in n.infos && f in n.infos[v])
    && (v in n.infos && f in n.infos[v] && (f, v) !in n.heard ==> n.infos[v][f].seconds == {})
    && (f in n.infos && f !in n.due && v in n.infos[f] ==>
          if Queue(n, f, v) != [] then Queue(n, f, v)[|Queue(n, f, v)| - 1] == n.infos[f].Keys
          else (f, v) in n.heard ==> n.infos[v][f].seconds == n.infos[f].Keys - {v})
  }

  ghost predicate Inv(n: Net) {
    && (forall v :: v in n.infos ==> n.infos[v].Keys <= n.infos.Keys)
    && forall f, v :: Told(n, f, v)
  }

  lemma ReconnectTold(n: Net, v: Id, connections: set<Id>, n': Net, f: Id, u: Id)
    requires Next(n, Reconnect(v, connections), n') && Told(n, f, u)
    ensures Told(n', f, u)
  {
    assert Queue(n', f, u) == Queue(n, f, u);
    assert u != v && u in n.infos ==> n'.infos[u] == n.infos[u];
    assert f != v && f in n.infos ==> n'.infos[f] == n.infos[f];
  }

  lemma BroadcastTold(n: Net, v: Id, tables: RouteTables.Tables, n': Net, f: Id, u: Id)
    requires Next(n, Broadcast(v, tables), n') && Told(n, f, u)
    ensures Told(n', f, u)
  {
    var q := Queue(n, f, u);
    assert Recipients(v, tables, n.infos[v].Keys) == n.infos[v].Keys;
    assert Queue(n', f, u) == q + if f == v && u in n.infos[v] then [n.infos[v].Keys] else [];
    assert q + [] == q;
  }

  lemma ArriveTold(n: Net, g: Id, v: Id, n': Net, f: Id, u: Id)
    requires Next(n, Arrive(g, v), n') && Told(n, f, u)
    ensures Told(n', f, u)
  {
    assert Queue(n', f, u) == if f == g && u == v then Queue(n, g, v)[1..] else Queue(n, f, u);
    assert u != v && u in n.infos ==> n'.infos[u] == n.infos[u];
    assert f in n.infos ==> n'.infos[f].Keys == n.infos[f].Keys;
  }

  lemma StepInv(n: Net, s: Step, n': Net)
    requires Inv(n) && Next(n, s, n')
    ensures Inv(n')
  {
    hide Told;
    forall f, v ensures Told(n', f, v) {
      assert Told(n, f, v);
      match s
      case Reconnect(u, connections) => ReconnectTold(n, u, connections, n', f, v);
      case Broadcast(u, tables) => BroadcastTold(n, u, tables, n', f, v);
      case Arrive(g, u) => ArriveTold(n, g, u, n', f, v);
    }
  }

  lemma StartInv(n: Net)
    requires Start(n)
    ensures Inv(n)
  {}

  lemma {:induction false} RunKeeps(tr: seq<Net>, steps: seq<Step>, k: nat)
    requires Run(tr, steps) && k < |tr|
    ensures Inv(tr[k])
  {
    hide Inv, Next;
    if k == 0 {
      StartInv(tr[0]);
    } else {
      RunKeeps(tr, steps, k - 1);
      assert Next(tr[k - 1], steps[k - 1], tr[k - 1 + 1]);
      StepInv(tr[k - 1], steps[k - 1], tr[k]);
    }
  }

  // ---------------------------------------------------------------- what the exchange achieves

  /** Nothing is due or on its way, and neighbours have each other. */
  ghost predicate Quiet(n: Net) {
    && n.due == {} && (forall f, v :: Queue(n, f, v) == [])
    && forall v, f :: v in n.infos && f in n.infos[v] ==> f in n.infos && v in n.infos[f]
  }

  /** `v` has taken a list from `f` since it added it, or there is nothing to be told. */
  ghost predicate Informed(n: Net, f: Id, v: Id) {
    (f, v) in n.heard || (f in n.infos && n.infos[f].Keys <= {v})
  }

  /** In every quiet state of every run a node has its neighbour's present list exactly when it has taken
      one from it since it added that neighbour, or the neighbour has no other neighbours. */
  lemma QuietNeighbors(tr: seq<Net>, steps: seq<Step>, k: nat, f: Id, v: Id)
    requires Run(tr, steps) && k < |tr| && Quiet(tr[k]) && v in tr[k].infos && f in tr[k].infos[v]
    ensures f in tr[k].infos
    ensures tr[k].infos[v][f].seconds == tr[k].infos[f].Keys - {v} <==> Informed(tr[k], f, v)
  {
    hide Run;
    RunKeeps(tr, steps, k);
    assert Told(tr[k], f, v);
    assert Queue(tr[k], f, v) == [];
  }

  /** A list that arrives before its sender has been added is lost: the sender, once added, is known
      without neighbours, and nothing makes it send again. */
  lemma EarlyListIsLost(n: Net, f: Id, v: Id, n1: Net, connections: set<Id>, n2: Net)
    requires Next(n, Arrive(f, v), n1) && f !in n.infos[v] && f !in n.due && f != v && |Queue(n, f, v)| == 1
    requires Inv(n) && Next(n1, Reconnect(v, connections), n2) && f in connections
    ensures f !in n2.due && Queue(n2, f, v) == [] && (f, v) !in n2.heard && n2.infos[v][f].seconds == {}
  {
    assert Told(n, f, v);
    assert Queue(n1, f, v) == Queue(n, f, v)[1..];
    assert n2.infos[v].Keys == connections;
  }

  /** The nodes whose infos these are. */
  ghost predicate Describes(n: Net, nodes: Nodes) {
    nodes.Keys == n.infos.Keys && forall v :: v in nodes ==> nodes[v].infos == n.infos[v]
  }

  /** In every quiet state of every run the nodes, if each is consistent, form an exchanged network exactly
      when everybody is informed about its neighbours. */
  lemma QuietExchanged(tr: seq<Net>, steps: seq<Step>, k: nat, nodes: Nodes)
    requires Run(tr, steps) && k < |tr| && Quiet(tr[k]) && Describes(tr[k], nodes)
    requires forall v {:trigger Consistent(nodes, v)} :: v in nodes ==> Consistent(nodes, v)
    ensures Exchanged(nodes) <==> forall v, f :: v in nodes && f in nodes[v].infos ==> Informed(tr[k], f, v)
  {
    hide Run, Informed, Consistent;
    var n := tr[k];
    assert forall v :: v in nodes ==> n.infos[v] == nodes[v].infos;
    forall v, f | v in nodes && f in nodes[v].infos
      ensures f in nodes && (nodes[v].infos[f].seconds == nodes[f].infos.Keys - {v} <==> Informed(n, f, v))
    {
      QuietNeighbors(tr, steps, k, f, v);
    }
    if Exchanged(nodes) {
      forall v, f | v in nodes && f in nodes[v].infos ensures Informed(n, f, v) { assert Heard(nodes, v); }
    }
  }
}

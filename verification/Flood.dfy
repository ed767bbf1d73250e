/** The flood of one message over a static network without loss: every interleaving drains and
    handles exactly the right nodes, once. */
module Flood {
  import opened Ring
  import opened Sets
  import opened Spread

  /** Next nodes and distance from the centre of every node, the radius, the posting node and whether
      it waits for somebody to receive, and the nodes that use the knock step for this message. */
  datatype World = World(
    next: map<Id, set<Id>>,
    dist: map<Id, real>,
    r: real,
    origin: Id,
    relayed: bool,
    knockers: set<Id>)

  datatype State = State(cached: set<Id>, handled: seq<Id>, flight: seq<Msg>)

  ghost predicate Sound(w: World) {
    && w.origin in w.next && w.dist.Keys == w.next.Keys && w.dist[w.origin] <= w.r
    && forall v :: v in w.next ==> w.next[v] <= w.next.Keys
  }

  /** Next nodes a node sends to: strictly inside the circle, or on its edge when the origin relays. */
  function Targets(w: World, v: Id): set<Id>
    requires Sound(w) && v in w.next
  {
    set t | t in w.next[v] && (w.dist[t] < w.r || (w.relayed && v == w.origin && w.dist[t] <= w.r))
  }

  function KindOf(w: World, v: Id): Kind {
    if w.relayed && v == w.origin then Relayed else ForwardKind(v in w.knockers)
  }

  ghost predicate Init(w: World, s: State)
    requires Sound(w)
  {
    s.cached == {w.origin} && s.handled == [] && Emits(s.flight, KindOf(w, w.origin), w.origin, Targets(w, w.origin))
  }

  function Without(flight: seq<Msg>, i: nat): seq<Msg>
    requires i < |flight|
  {
    flight[..i] + flight[i + 1..]
  }

  /** The receiver handles the message. */
  predicate Fires(w: World, cached: set<Id>, m: Msg)
    requires m.dst in w.dist
  {
    (m.Message? || m.Relay?) && m.dst !in cached && w.dist[m.dst] <= w.r
  }

  /** What the receiver of `m` sends. */
  ghost predicate Answers(w: World, cached: set<Id>, m: Msg, out: seq<Msg>)
    requires Sound(w) && m.dst in w.next
  {
    match m
    case Message(u, v) =>
      if Fires(w, cached, m) then Emits(out, ForwardKind(v in w.knockers), v, Targets(w, v) - {u}) else out == []
    case Relay(u, v) =>
      if Fires(w, cached, m) then
        Emits(out, ForwardKind(v in w.knockers), v, Targets(w, v) - (if v in w.knockers then {u} else {}))
      else out == []
    case Knock(u, v) => out == [Reply(v, u, v !in cached && w.dist[v] <= w.r)]
    case Reply(v, u, accept) => out == if accept then [Message(u, v)] else []
  }

  /** Delivery of the `i`-th packet in flight, with what the receiver does about it. */
  ghost predicate Deliver(w: World, s: State, i: nat, out: seq<Msg>, s': State)
    requires Sound(w)
  {
    && i < |s.flight| && s.flight[i].dst in w.next
    && s'.flight == Without(s.flight, i) + out && Answers(w, s.cached, s.flight[i], out)
    && if Fires(w, s.cached, s.flight[i]) then
         s'.cached == s.cached + {s.flight[i].dst} && s'.handled == s.handled + [s.flight[i].dst]
       else
         s'.cached == s.cached && s'.handled == s.handled
  }

  ghost predicate Step(w: World, s: State, s': State)
    requires Sound(w)
  {
    exists i, out :: Deliver(w, s, i, out, s')
  }

  ghost predicate CanMove(w: World, s: State)
    requires Sound(w)
  {
    exists s' :: Step(w, s, s')
  }

  ghost predicate Run(w: World, tr: seq<State>)
    requires Sound(w)
  {
    tr != [] && Init(w, tr[0]) && forall k :: 0 <= k < |tr| - 1 ==> Step(w, tr[k], tr[k + 1])
  }

  // ---------------------------------------------------------------- invariant

  /** Node at the far end from the circle's point of view: who the packet is about. */
  function Subject(m: Msg): Id {
    if m.Reply? then m.src else m.dst
  }

  function Sender(m: Msg): Id {
    if m.Reply? then m.dst else m.src
  }

  /** Packets travel between a node that has the message and one of its next nodes inside. */
  ghost predicate GoodMsg(w: World, cached: set<Id>, m: Msg)
    requires Sound(w)
  {
    Sender(m) in cached && Sender(m) in w.next && Subject(m) in Targets(w, Sender(m))
  }

  ghost predicate Pending(flight: seq<Msg>, t: Id) {
    exists m :: m in flight && Subject(m) == t && (m.Reply? ==> m.accept)
  }

  /** A path from the origin along next nodes strictly inside the circle. */
  ghost predicate Path(w: World, p: seq<Id>)
    requires Sound(w)
  {
    && p != [] && p[0] == w.origin
    && (forall k :: 0 <= k < |p| ==> p[k] in w.next)
    && forall k :: 0 <= k < |p| - 1 ==> p[k + 1] in Targets(w, p[k])
  }

  ghost predicate Reachable(w: World, v: Id)
    requires Sound(w)
  {
    exists p :: Path(w, p) && p[|p| - 1] == v
  }

  ghost predicate Distinct(s: seq<Id>) {
    forall i, j :: 0 <= i < j < |s| ==> s[i] != s[j]
  }

  ghost predicate Safe(w: World, s: State)
    requires Sound(w)
  {
    && Distinct(s.handled) && w.origin !in s.handled
    && s.cached == Elems(s.handled) + {w.origin} && s.cached <= w.next.Keys
    && (forall v :: v in s.cached ==> Reachable(w, v) && w.dist[v] <= w.r)
    && forall m :: m in s.flight ==> GoodMsg(w, s.cached, m)
  }

  /** Every next node inside of a node that has the message has it too or is about to be asked. */
  ghost predicate Covered(w: World, s: State)
    requires Sound(w)
  {
    forall u, t :: u in s.cached && u in w.next && t in Targets(w, u) ==> t in s.cached || Pending(s.flight, t)
  }

  lemma InitInvariant(w: World, s: State)
    requires Sound(w) && Init(w, s)
    ensures Safe(w, s) && Covered(w, s)
  {
    assert Path(w, [w.origin]);
    assert Reachable(w, w.origin) by { assert [w.origin][0] == w.origin; }
    forall t | t in Targets(w, w.origin) ensures Pending(s.flight, t) {
      assert Send(KindOf(w, w.origin), w.origin, t) in s.flight;
    }
  }

  lemma ReachStep(w: World, u: Id, v: Id)
    requires Sound(w) && Reachable(w, u) && u in w.next && v in Targets(w, u)
    ensures Reachable(w, v)
  {
    var p :| Path(w, p) && p[|p| - 1] == u;
    var q := p + [v];
    assert Path(w, q);
    assert q[|q| - 1] == v;
  }

  lemma FlightMembers(flight: seq<Msg>, i: nat, out: seq<Msg>)
    requires i < |flight|
    ensures forall m :: m in Without(flight, i) + out ==> m in flight || m in out
    ensures forall m :: m in flight && m != flight[i] ==> m in Without(flight, i) + out
    ensures forall m :: m in out ==> m in Without(flight, i) + out
  {
    forall m | m in flight && m != flight[i] ensures m in Without(flight, i) + out {
      var k :| 0 <= k < |flight| && flight[k] == m;
      if k < i { assert Without(flight, i)[k] == m; } else { assert Without(flight, i)[k - 1] == m; }
    }
  }

  lemma StepSafe(w: World, s: State, i: nat, out: seq<Msg>, s': State)
    requires Sound(w) && Safe(w, s) && Deliver(w, s, i, out, s')
    ensures Safe(w, s')
  {
    hide Reachable, Emits;
    FlightMembers(s.flight, i, out);
    var m := s.flight[i];
    assert m in s.flight;
    assert GoodMsg(w, s.cached, m);
    NewMessages(w, s, i, out, s');
    if s'.cached != s.cached {
      ReachStep(w, m.src, m.dst);
      assert m.dst !in Elems(s.handled);
      assert Elems(s'.handled) == Elems(s.handled) + {m.dst};
    }
  }

  lemma NewMessages(w: World, s: State, i: nat, out: seq<Msg>, s': State)
    requires Sound(w) && Safe(w, s) && Deliver(w, s, i, out, s')
    ensures forall m :: m in out ==> GoodMsg(w, s'.cached, m)
  {
    hide Reachable;
    assert s.flight[i] in s.flight;
    assert GoodMsg(w, s.cached, s.flight[i]);
  }

  lemma StepCovered(w: World, s: State, i: nat, out: seq<Msg>, s': State)
    requires Sound(w) && Safe(w, s) && Covered(w, s) && Deliver(w, s, i, out, s')
    ensures Covered(w, s')
  {
    hide Reachable, Pending;
    forall u, t | u in s'.cached && u in w.next && t in Targets(w, u) && t !in s'.cached
      ensures Pending(s'.flight, t)
    {
      if u in s.cached {
        assert Pending(s.flight, t);
        StillPending(w, s, i, out, s', t);
      } else {
        NewlyPending(w, s, i, out, s', t);
      }
    }
  }

  lemma StillPending(w: World, s: State, i: nat, out: seq<Msg>, s': State, t: Id)
    requires Sound(w) && Safe(w, s) && Deliver(w, s, i, out, s')
    requires Pending(s.flight, t) && t !in s'.cached
    ensures Pending(s'.flight, t)
  {
    hide Reachable;
    FlightMembers(s.flight, i, out);
    var m :| m in s.flight && Subject(m) == t && (m.Reply? ==> m.accept);
    var d := s.flight[i];
    assert d in s.flight;
    if m == d {
      assert GoodMsg(w, s.cached, d);
      assert out[0] in out;
    } else {
      assert m in s'.flight;
    }
  }

  lemma NewlyPending(w: World, s: State, i: nat, out: seq<Msg>, s': State, t: Id)
    requires Sound(w) && Safe(w, s) && Deliver(w, s, i, out, s')
    requires s'.cached != s.cached && t !in s'.cached && t in Targets(w, s.flight[i].dst)
    ensures Pending(s'.flight, t)
  {
    hide Reachable;
    FlightMembers(s.flight, i, out);
    var d := s.flight[i];
    assert d in s.flight;
    assert GoodMsg(w, s.cached, d);
    assert Send(ForwardKind(d.dst in w.knockers), d.dst, t) in out;
  }

  lemma {:induction false} RunInvariant(w: World, tr: seq<State>)
    requires Sound(w) && Run(w, tr)
    ensures Safe(w, tr[|tr| - 1]) && Covered(w, tr[|tr| - 1])
  {
    hide Safe, Covered;
    if |tr| == 1 {
      InitInvariant(w, tr[0]);
    } else {
      var n := |tr| - 1;
      RunInvariant(w, tr[..n]);
      assert Step(w, tr[n - 1], tr[n - 1 + 1]);
      var i, out :| Deliver(w, tr[n - 1], i, out, tr[n]);
      StepSafe(w, tr[n - 1], i, out, tr[n]);
      StepCovered(w, tr[n - 1], i, out, tr[n]);
    }
  }

  /** In every reachable state nobody has handled the message twice, or outside the circle, or at the
      origin. */
  lemma FloodIsSafe(w: World, tr: seq<State>)
    requires Sound(w) && Run(w, tr)
    ensures var s := tr[|tr| - 1];
            && Distinct(s.handled) && w.origin !in s.handled
            && forall v :: v in s.handled ==> v in w.dist && w.dist[v] <= w.r
  {
    RunInvariant(w, tr);
    var s := tr[|tr| - 1];
    forall v | v in s.handled ensures v in w.dist && w.dist[v] <= w.r {
      assert v in Elems(s.handled);
    }
  }

  /** Once nothing is in flight, the nodes that have handled the message are exactly those other than
      the origin that next nodes strictly inside the circle connect to it. */
  lemma FloodIsComplete(w: World, tr: seq<State>)
    requires Sound(w) && Run(w, tr) && tr[|tr| - 1].flight == []
    ensures forall v :: v in tr[|tr| - 1].handled <==> v != w.origin && Reachable(w, v)
  {
    hide Reachable;
    RunInvariant(w, tr);
    var s := tr[|tr| - 1];
    forall v ensures v in s.handled <==> v != w.origin && Reachable(w, v) {
      assert v in s.handled <==> v in Elems(s.handled);
      if Reachable(w, v) { DrainedCoversReachable(w, s, v); }
    }
  }

  lemma DrainedCoversReachable(w: World, s: State, v: Id)
    requires Sound(w) && Safe(w, s) && Covered(w, s) && s.flight == [] && Reachable(w, v)
    ensures v in s.cached
  {
    var p :| Path(w, p) && p[|p| - 1] == v;
    PathIsCached(w, s, p, |p| - 1);
  }

  lemma {:induction false} PathIsCached(w: World, s: State, p: seq<Id>, k: nat)
    requires Sound(w) && Safe(w, s) && Covered(w, s) && s.flight == [] && Path(w, p) && k < |p|
    ensures p[k] in s.cached
  {
    hide Reachable;
    if k > 0 {
      PathIsCached(w, s, p, k - 1);
      assert p[k - 1 + 1] in Targets(w, p[k - 1]);
    }
  }

  // ---------------------------------------------------------------- termination

  function Weight(m: Msg): nat {
    match m
    case Message(_, _) => 1
    case Relay(_, _) => 1
    case Reply(_, _, _) => 2
    case Knock(_, _) => 3
  }

  function Weights(flight: seq<Msg>): nat {
    if flight == [] then 0 else Weight(flight[0]) + Weights(flight[1..])
  }

  lemma {:induction false} WeightsConcat(a: seq<Msg>, b: seq<Msg>)
    ensures Weights(a + b) == Weights(a) + Weights(b)
  {
    if a == [] {
      assert a + b == b;
    } else {
      assert (a + b)[1..] == a[1..] + b;
      WeightsConcat(a[1..], b);
    }
  }

  lemma WeightsWithout(flight: seq<Msg>, i: nat)
    requires i < |flight|
    ensures Weights(flight) == Weights(Without(flight, i)) + Weight(flight[i])
  {
    var a, m, b := flight[..i], flight[i], flight[i + 1..];
    assert flight == a + ([m] + b);
    hide Weights;
    WeightsConcat(a, [m] + b);
    WeightsConcat([m], b);
    WeightsConcat(a, b);
    WeightsOne([m]);
  }

  lemma {:induction false} WeightsBound(flight: seq<Msg>)
    ensures Weights(flight) <= 3 * |flight|
  {
    if flight != [] { WeightsBound(flight[1..]); }
  }

  /** Number of next-node links out of a set of nodes. */
  ghost function Links(w: World, nodes: set<Id>): nat
    requires nodes <= w.next.Keys
  {
    if nodes == {} then 0
    else
      var v :| v in nodes;
      |w.next[v]| + Links(w, nodes - {v})
  }

  lemma {:induction false} LinksRemove(w: World, nodes: set<Id>, v: Id)
    requires nodes <= w.next.Keys && v in nodes
    ensures Links(w, nodes) == |w.next[v]| + Links(w, nodes - {v})
    decreases nodes
  {
    var x :| x in nodes && Links(w, nodes) == |w.next[x]| + Links(w, nodes - {x});
    if x != v {
      LinksRemove(w, nodes - {x}, v);
      LinksRemove(w, nodes - {v}, x);
      assert nodes - {x} - {v} == nodes - {v} - {x};
    }
  }

  /** What can still happen: packets in flight by how many packets each may turn into, plus the links
      of the nodes that do not have the message. */
  ghost function Potential(w: World, s: State): nat {
    Weights(s.flight) + 3 * Links(w, w.next.Keys - s.cached)
  }

  lemma TargetsBound(w: World, v: Id, x: set<Id>)
    requires Sound(w) && v in w.next && x <= Targets(w, v)
    ensures |x| <= |w.next[v]|
  {
    SubsetCard(x, w.next[v]);
  }

  lemma StepDecreases(w: World, s: State, i: nat, out: seq<Msg>, s': State)
    requires Sound(w) && Deliver(w, s, i, out, s')
    ensures Potential(w, s') < Potential(w, s)
  {
    WeightsWithout(s.flight, i);
    WeightsConcat(Without(s.flight, i), out);
    var m := s.flight[i];
    if s'.cached != s.cached {
      var v := m.dst;
      var lacking := w.next.Keys - s.cached;
      LinksRemove(w, lacking, v);
      assert w.next.Keys - s'.cached == lacking - {v};
      WeightsBound(out);
      TargetsBound(w, v, Targets(w, v) - {m.src});
      TargetsBound(w, v, Targets(w, v) - {});
    } else {
      WeightsOne(out);
    }
  }

  lemma WeightsOne(out: seq<Msg>)
    requires |out| <= 1
    ensures Weights(out) == if out == [] then 0 else Weight(out[0])
  {}

  /** Every run is finite: it has at most three steps per next-node link of the network, and a state
      with packets in flight always has a next step, so every run can be, and when continued is,
      drained. */
  lemma FloodDrains(w: World, tr: seq<State>)
    requires Sound(w) && Run(w, tr)
    ensures |tr| - 1 <= 3 * Links(w, w.next.Keys)
    ensures tr[|tr| - 1].flight != [] ==> CanMove(w, tr[|tr| - 1])
  {
    InitPotential(w, tr[0]);
    RunPotential(w, tr);
    RunInvariant(w, tr);
    if tr[|tr| - 1].flight != [] { CanStep(w, tr[|tr| - 1]); }
  }

  lemma InitPotential(w: World, s: State)
    requires Sound(w) && Init(w, s)
    ensures Potential(w, s) <= 3 * Links(w, w.next.Keys)
  {
    LinksRemove(w, w.next.Keys, w.origin);
    WeightsBound(s.flight);
    TargetsBound(w, w.origin, Targets(w, w.origin));
  }

  lemma {:induction false} RunPotential(w: World, tr: seq<State>)
    requires Sound(w) && Run(w, tr)
    ensures Potential(w, tr[|tr| - 1]) + |tr| - 1 <= Potential(w, tr[0])
  {
    hide Potential;
    if |tr| > 1 {
      var n := |tr| - 1;
      RunPotential(w, tr[..n]);
      assert Step(w, tr[n - 1], tr[n - 1 + 1]);
      var i, out :| Deliver(w, tr[n - 1], i, out, tr[n]);
      StepDecreases(w, tr[n - 1], i, out, tr[n]);
    }
  }

  lemma CanStep(w: World, s: State)
    requires Sound(w) && Safe(w, s) && s.flight != []
    ensures CanMove(w, s)
  {
    hide Reachable, Deliver;
    var m := s.flight[0];
    assert m in s.flight;
    assert GoodMsg(w, s.cached, m);
    var out, s' := Response(w, s, m);
    assert Deliver(w, s, 0, out, s');
    assert Step(w, s, s');
  }

  /** Some way the receiver of the first packet can act. */
  lemma Response(w: World, s: State, m: Msg) returns (out: seq<Msg>, s': State)
    requires Sound(w) && s.flight != [] && m == s.flight[0] && m.dst in w.next
    requires Subject(m) in w.next
    ensures Deliver(w, s, 0, out, s')
  {
    hide Emits, Targets;
    var rest := Without(s.flight, 0);
    if m.Knock? {
      out := [Reply(m.dst, m.src, m.dst !in s.cached && w.dist[m.dst] <= w.r)];
      s' := s.(flight := rest + out);
    } else if m.Reply? {
      out := if m.accept then [Message(m.dst, m.src)] else [];
      s' := s.(flight := rest + out);
    } else if m.dst in s.cached || w.dist[m.dst] > w.r {
      out := [];
      s' := s.(flight := rest + out);
    } else {
      var exclude := if m.Message? || m.dst in w.knockers then {m.src} else {};
      out := EmitTo(ForwardKind(m.dst in w.knockers), m.dst, Targets(w, m.dst) - exclude);
      s' := State(s.cached + {m.dst}, s.handled + [m.dst], rest + out);
    }
  }

  lemma {:induction false} EmitTo(kind: Kind, src: Id, targets: set<Id>) returns (out: seq<Msg>)
    ensures Emits(out, kind, src, targets)
    decreases targets
  {
    hide Emits;
    if targets == {} {
      out := [];
      EmitsNothing(kind, src);
    } else {
      var t :| t in targets;
      out := EmitTo(kind, src, targets - {t});
      EmitsOne(out, kind, src, targets - {t}, t);
      assert targets - {t} + {t} == targets;
      out := out + [Send(kind, src, t)];
    }
  }
}

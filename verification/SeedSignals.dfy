/** Signals between nodes through the seed: which node a signal for "the next node" goes to
    (seed/misc/map_helper.go, seed/gateway/simple.go, seed/controller/controller.go). */
module SeedSignals {
  import opened NodeIds
  import opened Ring
  import opened RouteTables

  /** The key other than the given one that comes first clockwise. */
  method GetNextByMap(nodeID: Id, keys: set<Id>) returns (next: Option<Id>)
    ensures next.None? <==> keys - {nodeID} == {}
    ensures next.Some? ==> IsSuccessor(nodeID, keys - {nodeID}, next.value)
  {
    var min: Option<Id> := None;
    next := None;
    var todo := keys;
    while todo != {}
      invariant todo <= keys
      invariant min.None? ==> forall n :: n in keys && n !in todo ==> n == nodeID
      invariant min.Some? ==> min.value in keys && min.value != nodeID &&
                              forall n :: n in keys && n !in todo && n != nodeID ==> min.value <= n
      invariant next.None? ==> forall n :: n in keys && n !in todo ==> n <= nodeID
      invariant next.Some? ==> next.value in keys && next.value > nodeID &&
                               forall n :: n in keys && n !in todo && n > nodeID ==> next.value <= n
    {
      var n :| n in todo;
      if n != nodeID {
        if min.None? || n < min.value {
          min := Some(n);
        }
        if !(n < nodeID) {
          if next.None? || n < next.value {
            next := Some(n);
          }
        }
      }
      todo := todo - {n};
    }
    if next.None? {
      next := min;
    }
    if next.Some? { assert next.value in keys - {nodeID}; }
  }

  /** Clockwise distance picks one node only. */
  lemma SuccessorUnique(id: Id, nodes: set<Id>, x: Id, y: Id)
    requires IsSuccessor(id, nodes, x) && IsSuccessor(id, nodes, y)
    ensures x == y
  {
    assert Cw(id, x) == Cw(id, y);
  }

  /** A successor among all nodes that is also in a subset is the successor among the subset. */
  lemma SuccessorInSubset(id: Id, nodes: set<Id>, some: set<Id>, x: Id)
    requires IsSuccessor(id, nodes - {id}, x) && some <= nodes && x in some
    ensures IsSuccessor(id, some - {id}, x)
  {
    forall y | y in some - {id} ensures Cw(id, x) <= Cw(id, y) { assert y in nodes - {id}; }
  }

  datatype Signal = Signal(dst: Id, content: nat)

  datatype Waiting = Waiting(signal: Signal, relayToNext: bool)

  datatype Entry = Entry(subscribing: bool, waiting: seq<Waiting>)

  /** The node a signal is meant for. */
  ghost predicate IsTarget(nodes: set<Id>, signal: Signal, relayToNext: bool, x: Id) {
    if relayToNext then IsSuccessor(signal.dst, nodes - {signal.dst}, x) else x == signal.dst && x in nodes
  }

  /** Of the queued signals those meant for `x` among `nodes`, in order. */
  ghost function Share(nodes: set<Id>, queue: seq<Waiting>, x: Id): seq<Signal> {
    if queue == [] then []
    else
      var n := |queue| - 1;
      Share(nodes, queue[..n], x) +
      if IsTarget(nodes, queue[n].signal, queue[n].relayToNext, x) then [queue[n].signal] else []
  }

  /** Every channel has received its share of the queue. */
  ghost predicate Shared(before: map<Id, seq<Signal>>, queue: seq<Waiting>, after: map<Id, seq<Signal>>) {
    && after.Keys == before.Keys
    && forall m :: m in before ==> after[m] == before[m] + Share(before.Keys, queue, m)
  }

  lemma SharedNone(channels: map<Id, seq<Signal>>)
    ensures Shared(channels, [], channels)
  {}

  /** One more signal, into the channel of its target if there is one. */
  lemma SharedOne(before: map<Id, seq<Signal>>, queue: seq<Waiting>, mid: map<Id, seq<Signal>>, w: Waiting,
                  to: Option<Id>, after: map<Id, seq<Signal>>)
    requires Shared(before, queue, mid) && after.Keys == mid.Keys
    requires to.Some? ==> to.value in mid && IsTarget(mid.Keys, w.signal, w.relayToNext, to.value) &&
                          after == mid[to.value := mid[to.value] + [w.signal]]
    requires to.None? ==> after == mid && forall x :: !IsTarget(mid.Keys, w.signal, w.relayToNext, x)
    ensures Shared(before, queue + [w], after)
  {
    hide IsTarget, Share;
    forall m | m in before ensures after[m] == before[m] + Share(before.Keys, queue + [w], m) {
      ShareOne(before.Keys, queue, w, m);
      if to.Some? && IsTarget(mid.Keys, w.signal, w.relayToNext, m) {
        TargetUnique(mid.Keys, w.signal, w.relayToNext, to.value, m);
      }
    }
  }

  lemma ShareOne(nodes: set<Id>, queue: seq<Waiting>, w: Waiting, x: Id)
    ensures Share(nodes, queue + [w], x) ==
            Share(nodes, queue, x) + if IsTarget(nodes, w.signal, w.relayToNext, x) then [w.signal] else []
  {
    assert (queue + [w])[..|queue|] == queue;
  }

  lemma TargetUnique(nodes: set<Id>, signal: Signal, relayToNext: bool, x: Id, y: Id)
    requires IsTarget(nodes, signal, relayToNext, x) && IsTarget(nodes, signal, relayToNext, y)
    ensures x == y
  {
    if relayToNext { SuccessorUnique(signal.dst, nodes - {signal.dst}, x, y); }
  }

  /** A signal queued for `x`, its target among the nodes registered then, is later handed to `x` exactly
      when no node registered since and subscribing now comes before `x` clockwise; signals to a node
      itself always are. */
  lemma HandedToOwnerIff(before: set<Id>, now: set<Id>, w: Waiting, x: Id)
    requires IsTarget(before, w.signal, w.relayToNext, x) && x in now
    ensures IsTarget(now, w.signal, w.relayToNext, x) <==>
            var dst := w.signal.dst;
            w.relayToNext ==> forall m :: m in now - before - {dst} ==> Cw(dst, x) <= Cw(dst, m)
  {
    var dst := w.signal.dst;
    if w.relayToNext {
      assert forall m :: m in now - {dst} ==> m in before - {dst} || m in now - before - {dst};
    }
  }

  class Seed {
    /** The gateway's registered nodes. */
    var nodes: map<Id, Entry>
    /** The controller's channels, with the signals sent into each. */
    var channels: map<Id, seq<Signal>>

    /** Channels exist exactly for the nodes that subscribe. */
    ghost predicate Valid()
      reads this
    {
      forall n :: n in channels <==> n in nodes && nodes[n].subscribing
    }

    constructor ()
      ensures Valid() && nodes == map[] && channels == map[]
    {
      nodes, channels := map[], map[];
    }

    method AssignNode(n: Id)
      requires Valid() && n !in nodes
      modifies this`nodes
      ensures Valid() && nodes == old(nodes)[n := Entry(false, [])]
    {
      nodes := nodes[n := Entry(false, [])];
    }

    method UnassignNode(n: Id)
      requires Valid()
      modifies this
      ensures Valid() && nodes == old(nodes) - {n} && channels == old(channels) - {n}
    {
      nodes := nodes - {n};
      channels := channels - {n};
    }

    /** Start of a poll: subscribes and opens a channel, unless there is one or the node is unknown. */
    method Subscribe(n: Id) returns (ok: bool)
      requires Valid()
      modifies this
      ensures Valid()
      ensures ok <==> n !in old(channels) && n in old(nodes)
      ensures !ok ==> nodes == old(nodes) && channels == old(channels)
      ensures ok ==> nodes == old(nodes)[n := old(nodes)[n].(subscribing := true)] && channels == old(channels)[n := []]
    {
      if n in channels || n !in nodes {
        return false;
      }
      nodes := nodes[n := nodes[n].(subscribing := true)];
      channels := channels[n := []];
      ok := true;
    }

    /** The call spawned by a subscription: the signals queued for the node are handled again, each going
        to its target among the nodes that subscribe now. */
    method HandOver(n: Id)
      requires Valid() && n in nodes
      modifies this
      ensures Valid() && nodes == old(nodes)[n := old(nodes)[n].(waiting := [])]
      ensures Shared(old(channels), old(nodes)[n].waiting, channels)
    {
      hide IsTarget, Shared;
      var queue := nodes[n].waiting;
      SharedNone(channels);
      for i := 0 to |queue|
        invariant nodes == old(nodes) && channels.Keys == old(channels).Keys
        invariant Shared(old(channels), queue[..i], channels)
      {
        ghost var before := channels;
        var to := HandleSignal(queue[i].signal, queue[i].relayToNext);
        SharedOne(old(channels), queue[..i], before, queue[i], to, channels);
        assert queue[..i + 1] == queue[..i] + [queue[i]];
      }
      assert queue[..|queue|] == queue;
      nodes := nodes[n := nodes[n].(waiting := [])];
    }

    /** End of a poll. */
    method Unsubscribe(n: Id)
      requires Valid()
      modifies this
      ensures Valid() && channels == old(channels) - {n} && nodes.Keys == old(nodes).Keys
      ensures forall m :: m in nodes ==>
                nodes[m] == if m == n then old(nodes)[m].(subscribing := false) else old(nodes)[m]
    {
      if n in nodes {
        nodes := nodes[n := nodes[n].(subscribing := false)];
      }
      channels := channels - {n};
    }

    /** The controller's side: the channel of the target among the nodes that have one. */
    method HandleSignal(signal: Signal, relayToNext: bool) returns (to: Option<Id>)
      modifies this`channels
      ensures channels.Keys == old(channels).Keys && (to.Some? ==> to.value in channels)
      ensures to.Some? ==> IsTarget(old(channels).Keys, signal, relayToNext, to.value) &&
                           channels == old(channels)[to.value := old(channels)[to.value] + [signal]]
      ensures to.None? ==> channels == old(channels) && forall x :: !IsTarget(channels.Keys, signal, relayToNext, x)
    {
      if relayToNext {
        to := GetNextByMap(signal.dst, channels.Keys);
      } else {
        to := if signal.dst in channels then Some(signal.dst) else None;
      }
      if to.Some? {
        channels := channels[to.value := channels[to.value] + [signal]];
      }
    }

    /** A published signal goes to its target among all registered nodes: into the target's channel,
        and no other, when the target subscribes, and otherwise into the target's queue. */
    method PublishSignal(signal: Signal, relayToNext: bool) returns (to: Option<Id>)
      requires Valid()
      modifies this
      ensures Valid()
      ensures to.None? ==> nodes == old(nodes) && channels == old(channels) &&
                           forall x :: !IsTarget(nodes.Keys, signal, relayToNext, x)
      ensures to.Some? ==> IsTarget(old(nodes).Keys, signal, relayToNext, to.value)
      ensures to.Some? && old(nodes)[to.value].subscribing ==>
                nodes == old(nodes) && to.value in old(channels) &&
                channels == old(channels)[to.value := old(channels)[to.value] + [signal]]
      ensures to.Some? && !old(nodes)[to.value].subscribing ==>
                channels == old(channels) &&
                nodes == old(nodes)[to.value := old(nodes)[to.value].(waiting :=
                           old(nodes)[to.value].waiting + [Waiting(signal, relayToNext)])]
    {
      if relayToNext {
        to := GetNextByMap(signal.dst, nodes.Keys);
      } else {
        to := if signal.dst in nodes then Some(signal.dst) else None;
      }
      if to.None? {
        return;
      }
      var x := to.value;
      if nodes[x].subscribing {
        SameTarget(nodes.Keys, channels.Keys, signal, relayToNext, x);
        var handed := HandleSignal(signal, relayToNext);
        if handed.Some? {
          TargetUnique(old(channels).Keys, signal, relayToNext, x, handed.value);
        }
      } else {
        nodes := nodes[x := nodes[x].(waiting := nodes[x].waiting + [Waiting(signal, relayToNext)])];
      }
    }

    static lemma SameTarget(nodes: set<Id>, channels: set<Id>, signal: Signal, relayToNext: bool, x: Id)
      requires channels <= nodes && x in channels && IsTarget(nodes, signal, relayToNext, x)
      ensures IsTarget(channels, signal, relayToNext, x)
    {
      if relayToNext { SuccessorInSubset(signal.dst, nodes, channels, x); }
    }
  }
}

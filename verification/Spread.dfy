/** Spreading a message to every node inside a circle: what one node does with the packets
    (node/internal/spread/spread.go). */
module Spread {
  import opened NodeIds
  import opened Ring

  datatype Content = Content(source: Id, center: Pos, r: real, uid: nat, name: string, message: seq<nat>)

  /** Packets of one spread: the message itself, sent on or relayed on behalf of a waiting poster, the
      question whether to send it, and the answer. */
  datatype Msg =
    | Message(src: Id, dst: Id)
    | Relay(src: Id, dst: Id)
    | Knock(src: Id, dst: Id)
    | Reply(src: Id, dst: Id, accept: bool)

  datatype Kind = Plain | Relayed | Asking

  function Send(kind: Kind, src: Id, dst: Id): Msg {
    match kind
    case Plain => Message(src, dst)
    case Relayed => Relay(src, dst)
    case Asking => Knock(src, dst)
  }

  function ForwardKind(knock: bool): Kind {
    if knock then Asking else Plain
  }

  /** One packet from `src` to each of `targets`, in any order. */
  ghost predicate Emits(out: seq<Msg>, kind: Kind, src: Id, targets: set<Id>) {
    && |out| == |targets|
    && (forall m :: m in out ==> m == Send(kind, src, m.dst) && m.dst in targets)
    && (forall t :: t in targets ==> Send(kind, src, t) in out)
  }

  lemma EmitsNothing(kind: Kind, src: Id)
    ensures Emits([], kind, src, {})
  {}

  lemma EmitsOne(out: seq<Msg>, kind: Kind, src: Id, done: set<Id>, t: Id)
    requires Emits(out, kind, src, done) && t !in done
    ensures Emits(out + [Send(kind, src, t)], kind, src, done + {t})
  {
    var out' := out + [Send(kind, src, t)];
    forall x | x in done + {t} ensures Send(kind, src, x) in out' {
      if x == t { assert out'[|out|] == Send(kind, src, t); } else { assert Send(kind, src, x) in out; }
    }
  }

  /** The loop that sends one packet to each node of a set. */
  method EmitAll(kind: Kind, src: Id, targets: set<Id>) returns (out: seq<Msg>)
    ensures Emits(out, kind, src, targets)
  {
    hide Emits;
    out := [];
    EmitsNothing(kind, src);
    var todo := targets;
    assert targets - todo == {};
    while todo != {}
      invariant todo <= targets && Emits(out, kind, src, targets - todo)
    {
      var t :| t in todo;
      EmitsOne(out, kind, src, targets - todo, t);
      assert targets - todo + {t} == targets - (todo - {t});
      out := out + [Send(kind, src, t)];
      todo := todo - {t};
    }
    assert targets - todo == targets;
  }

  // ---------------------------------------------------------------- what a node does with a packet

  /** A node as far as spreading is concerned. */
  datatype View = View(
    local: Id,
    distance: (Pos, Pos) -> real,
    sizeToUseKnock: nat,
    position: Pos,
    nextPositions: map<Id, Pos>,
    cache: map<nat, Content>)

  predicate Inside(v: View, c: Content) {
    v.distance(c.center, v.position) <= c.r
  }

  /** Next nodes strictly inside the circle, except the one named. */
  function Targets(v: View, c: Content, exclude: Option<Id>): set<Id> {
    set t | t in v.nextPositions && Some(t) != exclude && v.distance(c.center, v.nextPositions[t]) < c.r
  }

  /** Next nodes inside the circle or on its edge. */
  function RelayTargets(v: View, c: Content): set<Id> {
    set t | t in v.nextPositions && v.distance(c.center, v.nextPositions[t]) <= c.r
  }

  /** Large messages are announced before they are sent. */
  predicate UsesKnock(v: View, c: Content) {
    |c.message| > v.sizeToUseKnock
  }

  function Cached(v: View, c: Content): View {
    v.(cache := v.cache[c.uid := c])
  }

  /** The node `v` posts `c` from inside the circle and sends `out`: the message is cached and forwarded,
      not handled locally. If somebody must receive it, it is relayed to the next nodes, which answer. */
  ghost predicate Posts(v: View, c: Content, someoneMustExist: bool, out: seq<Msg>, v': View) {
    && v' == Cached(v, c)
    && if someoneMustExist then Emits(out, Relayed, v.local, RelayTargets(v, c))
       else Emits(out, ForwardKind(UsesKnock(v, c)), v.local, Targets(v, c, None))
  }

  /** The node `v` deals with a packet `m` about `c`: whether it hands the message to its handler, what
      it sends and what becomes of it. */
  ghost predicate Handles(v: View, c: Content, m: Msg, fired: bool, out: seq<Msg>, v': View) {
    match m
    case Message(from, _) =>
      && fired == (c.uid !in v.cache && Inside(v, c))
      && v' == (if fired then Cached(v, c) else v)
      && if fired then Forwards(v, c, Some(from), out) else out == []
    case Relay(from, _) =>
      && fired == (c.uid !in v.cache && Inside(v, c))
      && v' == (if c.uid in v.cache then v else Cached(v, c))
      && if fired then Forwards(v, c, if UsesKnock(v, c) then Some(from) else None, out) else out == []
    case Knock(from, _) =>
      !fired && v' == v && out == [Reply(v.local, from, c.uid !in v.cache && Inside(v, c))]
    case Reply(from, _, accept) =>
      !fired && v' == v && out == (if accept then [Message(v.local, from)] else [])
  }

  ghost predicate Forwards(v: View, c: Content, exclude: Option<Id>, out: seq<Msg>) {
    Emits(out, ForwardKind(UsesKnock(v, c)), v.local, Targets(v, c, exclude))
  }

  /** A knock is accepted exactly when the message that may follow would be handled, so an asker that
      waits for acceptance keeps nobody from handling it and sends nothing in vain. */
  lemma KnockPredicts(v: View, c: Content, from: Id, ask: seq<Msg>, v1: View, fired: bool, out: seq<Msg>, v2: View)
    requires Handles(v, c, Knock(from, v.local), false, ask, v1)
    requires Handles(v1, c, Message(from, v.local), fired, out, v2)
    ensures ask == [Reply(v.local, from, fired)]
  {}

  class Node {
    const local: Id
    const distance: (Pos, Pos) -> real
    const sizeToUseKnock: nat
    var position: Pos
    var nextPositions: map<Id, Pos>
    var cache: map<nat, Content>

    function V(): View
      reads this
    {
      View(local, distance, sizeToUseKnock, position, nextPositions, cache)
    }

    constructor (local: Id, distance: (Pos, Pos) -> real, sizeToUseKnock: nat, position: Pos)
      ensures V() == View(local, distance, sizeToUseKnock, position, map[], map[])
    {
      this.local, this.distance, this.sizeToUseKnock, this.position := local, distance, sizeToUseKnock, position;
      nextPositions, cache := map[], map[];
    }

    /** A post under a fresh uid. From outside the circle it is relayed to the node that leads towards
        the centre; where there is none, a post that somebody must receive fails and another goes to
        this node, which ignores it. */
    method Post(c: Content, someoneMustExist: bool, relayNode: Option<Id>) returns (failed: bool, out: seq<Msg>)
      requires c.uid !in cache
      modifies this`cache
      ensures V() == Cached(old(V()), c)
      ensures failed <==> !Inside(V(), c) && someoneMustExist && relayNode.None?
      ensures Inside(V(), c) ==> Posts(old(V()), c, someoneMustExist, out, V())
      ensures Inside(V(), c) ==> forall m :: m in out ==>
                && m.src == local
                && if someoneMustExist then m.Relay? else if |c.message| > sizeToUseKnock then m.Knock? else m.Message?
      ensures !Inside(V(), c) ==>
                out == if failed then [] else [Relay(local, if relayNode.Some? then relayNode.value else local)]
    {
      cache := cache[c.uid := c];
      failed := false;
      if distance(c.center, position) > c.r {
        failed := someoneMustExist && relayNode.None?;
        out := if failed then [] else [Relay(local, if relayNode.Some? then relayNode.value else local)];
      } else if someoneMustExist {
        out := EmitAll(Relayed, local, RelayTargets(V(), c));
      } else {
        out := EmitAll(ForwardKind(UsesKnock(V(), c)), local, Targets(V(), c, None));
      }
    }

    /** Handles and forwards a message the first time it arrives inside the circle; large ones are
        announced instead of sent. */
    method RecvSpread(from: Id, c: Content) returns (fired: bool, out: seq<Msg>)
      modifies this`cache
      ensures Handles(old(V()), c, Message(from, local), fired, out, V())
      ensures forall m :: m in out ==> m.src == local && if |c.message| > sizeToUseKnock then m.Knock? else m.Message?
    {
      if c.uid in cache || distance(c.center, position) > c.r {
        return false, [];
      }
      cache := cache[c.uid := c];
      out := EmitAll(ForwardKind(UsesKnock(V(), c)), local, Targets(V(), c, Some(from)));
      fired := true;
    }

    /** As RecvSpread for a relayed message, with the answer unless the relay is one-way. Outside the
        circle the packet is cached and passed on to the node that leads towards the centre, which then
        answers in this node's place. Small messages go back to the sender as well. */
    method RecvRelay(from: Id, c: Content, oneWay: bool, relayNode: Option<Id>)
      returns (fired: bool, answer: Option<bool>, passOn: Option<Id>, out: seq<Msg>)
      modifies this`cache
      ensures Handles(old(V()), c, Relay(from, local), fired, out, V())
      ensures forall m :: m in out ==> m.src == local && if |c.message| > sizeToUseKnock then m.Knock? else m.Message?
      ensures answer.Some? <==> !oneWay && passOn.None?
      ensures answer.Some? ==> answer.value == fired
      ensures passOn == if c.uid !in old(cache) && !Inside(V(), c) then relayNode else None
    {
      fired, passOn, out := false, None, [];
      answer := if oneWay then None else Some(false);
      if c.uid in cache {
        return;
      }
      cache := cache[c.uid := c];
      if distance(c.center, position) > c.r {
        if relayNode.Some? {
          answer, passOn := None, relayNode;
        }
        return;
      }
      fired := true;
      answer := if oneWay then None else Some(true);
      var exclude := if UsesKnock(V(), c) then Some(from) else None;
      out := EmitAll(ForwardKind(UsesKnock(V(), c)), local, Targets(V(), c, exclude));
    }

    method RecvKnock(from: Id, c: Content) returns (out: Msg)
      ensures Handles(V(), c, Knock(from, local), false, [out], V())
    {
      var accept := false;
      if c.uid !in cache && distance(c.center, position) <= c.r {
        accept := true;
      }
      out := Reply(local, from, accept);
    }

    method OnKnockResponse(from: Id, c: Content, accept: bool) returns (out: seq<Msg>)
      ensures Handles(V(), c, Reply(from, local, accept), false, out, V())
    {
      if !accept {
        return [];
      }
      out := [Message(local, from)];
    }
  }
}

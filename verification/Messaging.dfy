/** Messaging over requests: the channel on which a post waits for its answer, and the writer with
    which a message handler answers (node/internal/messaging/messaging.go). */
module Messaging {
  import opened Transferer
  import opened Handlers

  datatype Reply = Response(message: seq<nat>) | Error(code: nat)

  const TIMEOUT := Error(0)

  /** A channel with room for one value. */
  datatype Channel = Channel(buffer: seq<Reply>, closed: bool)

  /** The handlers, the channel of every post, the handlers that have sent and not yet closed, the
      answers posts have returned with, and what each handler was called with. */
  datatype Posts = Posts(
    calls: Calls,
    channels: map<nat, Channel>,
    closing: set<nat>,
    returned: map<nat, Reply>,
    replies: map<nat, Reply>)

  const START := Posts(NOCALLS, map[], {}, map[], map[])

  // ---------------------------------------------------------------- steps

  /** A post is made; requests come and go; a handler sends its reply to the channel; it closes the
      channel; a post that waits receives from its channel. */
  datatype Move =
    | Make(id: nat, now: int)
    | Other(step: Step)
    | Send(i: nat, reply: Reply)
    | Close(t: nat)
    | Receive(t: nat)

  /** A receive goes on when there is a value or the channel is closed. The handler of a request that
      timed out is called with the timeout error. */
  ghost predicate Enabled(p: Posts, m: Move, interval: int) {
    match m
    case Make(id, now) => Transferer.Enabled(p.calls.requests, Request(id, true, now), interval)
    case Other(step) => Transferer.Enabled(p.calls.requests, step, interval)
    case Send(i, reply) =>
      && i < |p.calls.spawned|
      && (Count(p.calls.requests.log, TimedOut(p.calls.spawned[i])) == 1 ==> reply == TIMEOUT)
    case Close(t) => t in p.closing
    case Receive(t) => t in p.channels && t !in p.returned && (p.channels[t].buffer != [] || p.channels[t].closed)
  }

  /** Sending to a closed channel and closing it again panic, sending to a full one blocks, and
      receiving nothing from a closed one gives a nil that the post dereferences. */
  ghost predicate Safe(p: Posts, m: Move, interval: int)
    requires Enabled(p, m, interval)
  {
    match m
    case Send(i, _) => p.calls.spawned[i] in p.channels && p.channels[p.calls.spawned[i]] == Channel([], false)
    case Close(t) => t in p.channels && !p.channels[t].closed
    case Receive(t) => p.channels[t].buffer != []
    case _ => true
  }

  ghost function Apply(p: Posts, m: Move, interval: int, max: nat): Posts
    requires Enabled(p, m, interval) && Safe(p, m, interval)
  {
    match m
    case Make(id, now) =>
      p.(calls := Watch(p.calls, id, now, max), channels := p.channels[p.calls.requests.issued := Channel([], false)])
    case Other(step) => p.(calls := Happen(p.calls, step, max))
    case Send(i, reply) =>
      var t := p.calls.spawned[i];
      p.(calls := Begin(p.calls, i),
         channels := p.channels[t := p.channels[t].(buffer := p.channels[t].buffer + [reply])],
         closing := p.closing + {t}, replies := p.replies[t := reply])
    case Close(t) => p.(channels := p.channels[t := p.channels[t].(closed := true)], closing := p.closing - {t})
    case Receive(t) =>
      p.(channels := p.channels[t := p.channels[t].(buffer := p.channels[t].buffer[1..])],
         returned := p.returned[t := p.channels[t].buffer[0]])
  }

  /** A move that is not safe may end in any state. */
  ghost predicate Next(p: Posts, m: Move, p': Posts, interval: int, max: nat) {
    Enabled(p, m, interval) && (Safe(p, m, interval) ==> p' == Apply(p, m, interval, max))
  }

  ghost predicate Run(tr: seq<Posts>, moves: seq<Move>, interval: int, max: nat) {
    && |tr| == |moves| + 1 && tr[0] == START
    && forall k :: 0 <= k < |moves| ==> Next(tr[k], moves[k], tr[k + 1], interval, max)
  }

  // ---------------------------------------------------------------- invariant

  /** Before its handler runs a channel is open and empty; then it holds the reply until the post takes
      it, and is closed once the handler is done. */
  ghost predicate Phase(p: Posts, t: nat) {
    t in p.channels &&
    if t in p.calls.ran then
      && t in p.replies && p.channels[t].closed == (t !in p.closing)
      && p.channels[t].buffer == (if t in p.returned then [] else [p.replies[t]])
      && (t in p.returned ==> p.returned[t] == p.replies[t])
      && (Count(p.calls.requests.log, TimedOut(t)) == 1 ==> p.replies[t] == TIMEOUT)
    else
      p.channels[t] == Channel([], false) && t !in p.closing && t !in p.returned
  }

  ghost predicate Inv(p: Posts, max: nat) {
    && CallsInv(p.calls, max) && p.channels.Keys == p.calls.watched
    && (forall t :: t in p.closing || t in p.returned ==> t in p.calls.watched)
    && forall t :: t in p.calls.watched ==> Phase(p, t)
  }

  lemma MakeKeeps(p: Posts, id: nat, now: int, interval: int, max: nat)
    requires Inv(p, max) && Enabled(p, Make(id, now), interval)
    ensures Inv(Apply(p, Make(id, now), interval, max), max)
  {
    hide CallsInv, Phase, Count, Transferer.Apply;
    var p' := Apply(p, Make(id, now), interval, max);
    WatchKeeps(p.calls, id, now, max);
    FreshToken(p.calls, max);
    forall t | t in p'.calls.watched ensures Phase(p', t) {
      if t == p.calls.requests.issued {
        NewPhase(p', t);
      } else {
        StepCalls(p.calls, Request(id, true, now), interval, max, t);
        SamePhase(p, p', t);
      }
    }
  }

  lemma FreshToken(c: Calls, max: nat)
    requires CallsInv(c, max)
    ensures c.requests.issued !in c.watched && c.requests.issued !in c.ran
  {
    assert c.requests.issued in c.ran ==> c.requests.issued in c.spawned + c.ran;
  }

  lemma NewPhase(p: Posts, t: nat)
    requires t in p.channels && p.channels[t] == Channel([], false) && t !in p.calls.ran
    requires t !in p.closing && t !in p.returned
    ensures Phase(p, t)
  {}

  /** What a phase depends on. */
  lemma SamePhase(p: Posts, p': Posts, t: nat)
    requires Phase(p, t) && t in p'.channels && p'.channels[t] == p.channels[t]
    requires (t in p'.calls.ran <==> t in p.calls.ran) && (t in p'.closing <==> t in p.closing)
    requires (t in p'.returned <==> t in p.returned) && (t in p.returned ==> p'.returned[t] == p.returned[t])
    requires t in p.replies ==> t in p'.replies && p'.replies[t] == p.replies[t]
    requires t in p.calls.ran ==>
               Count(p'.calls.requests.log, TimedOut(t)) == Count(p.calls.requests.log, TimedOut(t))
    ensures Phase(p', t)
  {}

  /** Once its handler has run, a request cannot time out any more. */
  lemma StepCalls(c: Calls, step: Step, interval: int, max: nat, t: nat)
    requires CallsInv(c, max) && Transferer.Enabled(c.requests, step, interval)
    ensures t in c.ran ==>
              Count(Transferer.Apply(c.requests, step, max).log, TimedOut(t)) == Count(c.requests.log, TimedOut(t))
  {
    hide Transferer.Inv, Count, Transferer.Apply, Distinct;
    if t in c.ran {
      assert t in c.spawned + c.ran;
      var s' := Transferer.Apply(c.requests, step, max);
      StepKeeps(c.requests, step, interval, max);
      TokenHistory(s', max, t);
      CountGrows(c.requests, step, max, TimedOut(t));
      CountGrows(c.requests, step, max, Answered(t));
    }
  }

  lemma OtherKeeps(p: Posts, step: Step, interval: int, max: nat)
    requires Inv(p, max) && Enabled(p, Other(step), interval)
    ensures Inv(Apply(p, Other(step), interval, max), max)
  {
    hide CallsInv, Phase, Count, Transferer.Apply, Spawned;
    var p' := Apply(p, Other(step), interval, max);
    HappenKeeps(p.calls, step, interval, max);
    forall t | t in p'.calls.watched ensures Phase(p', t) {
      StepCalls(p.calls, step, interval, max, t);
      SamePhase(p, p', t);
    }
  }

  lemma SendKeeps(p: Posts, i: nat, reply: Reply, interval: int, max: nat)
    requires Inv(p, max) && Enabled(p, Send(i, reply), interval)
    ensures Safe(p, Send(i, reply), interval) && Inv(Apply(p, Send(i, reply), interval, max), max)
  {
    hide CallsInv, Count;
    var t0 := p.calls.spawned[i];
    BeginKeeps(p.calls, i, max);
    assert Phase(p, t0);
    var p' := Apply(p, Send(i, reply), interval, max);
    forall t | t in p'.calls.watched ensures Phase(p', t) {
      assert Phase(p, t);
      if t != t0 { SamePhase(p, p', t); }
    }
  }

  lemma CloseKeeps(p: Posts, t0: nat, interval: int, max: nat)
    requires Inv(p, max) && Enabled(p, Close(t0), interval)
    ensures Safe(p, Close(t0), interval) && Inv(Apply(p, Close(t0), interval, max), max)
  {
    hide CallsInv, Count;
    assert Phase(p, t0);
    var p' := Apply(p, Close(t0), interval, max);
    forall t | t in p'.calls.watched ensures Phase(p', t) {
      assert Phase(p, t);
      if t != t0 { SamePhase(p, p', t); }
    }
  }

  lemma ReceiveKeeps(p: Posts, t0: nat, interval: int, max: nat)
    requires Inv(p, max) && Enabled(p, Receive(t0), interval)
    ensures Safe(p, Receive(t0), interval) && Inv(Apply(p, Receive(t0), interval, max), max)
  {
    hide CallsInv, Count;
    assert Phase(p, t0);
    var p' := Apply(p, Receive(t0), interval, max);
    forall t | t in p'.calls.watched ensures Phase(p', t) {
      assert Phase(p, t);
      if t != t0 { SamePhase(p, p', t); }
    }
  }

  lemma MoveKeeps(p: Posts, m: Move, interval: int, max: nat)
    requires Inv(p, max) && Enabled(p, m, interval)
    ensures Safe(p, m, interval) && Inv(Apply(p, m, interval, max), max)
  {
    hide Inv, Apply;
    match m
    case Make(id, now) => MakeKeeps(p, id, now, interval, max);
    case Other(step) => OtherKeeps(p, step, interval, max);
    case Send(i, reply) => SendKeeps(p, i, reply, interval, max);
    case Close(t) => CloseKeeps(p, t, interval, max);
    case Receive(t) => ReceiveKeeps(p, t, interval, max);
  }

  lemma StartKeeps(max: nat)
    ensures Inv(START, max)
  {
    StartInv(max);
  }

  // ---------------------------------------------------------------- every run

  /** Over every run no channel is used after it is closed, filled twice or read empty. */
  lemma {:induction false} ChannelsAreSafe(tr: seq<Posts>, moves: seq<Move>, interval: int, max: nat, k: nat)
    requires Run(tr, moves, interval, max) && k < |tr|
    ensures Inv(tr[k], max)
    ensures k < |moves| ==> Enabled(tr[k], moves[k], interval) && Safe(tr[k], moves[k], interval)
  {
    hide Inv, Enabled, Safe, Apply;
    if k == 0 {
      StartKeeps(max);
    } else {
      ChannelsAreSafe(tr, moves, interval, max, k - 1);
      assert Next(tr[k - 1], moves[k - 1], tr[k - 1 + 1], interval, max);
      MoveKeeps(tr[k - 1], moves[k - 1], interval, max);
    }
    if k < |moves| {
      assert Next(tr[k], moves[k], tr[k + 1], interval, max);
      MoveKeeps(tr[k], moves[k], interval, max);
    }
  }

  /** Over every run a post returns what its handler was called with, the timeout error if its request
      timed out; and once its request is closed and its handler has run, it has returned or can,
      exactly unless the request was cancelled. */
  lemma PostReturns(tr: seq<Posts>, moves: seq<Move>, interval: int, max: nat, k: nat, t: nat)
    requires Run(tr, moves, interval, max) && k < |tr| && t in tr[k].calls.watched
    ensures t in tr[k].returned ==> t in tr[k].replies && tr[k].returned[t] == tr[k].replies[t]
    ensures t in tr[k].returned && Count(tr[k].calls.requests.log, TimedOut(t)) == 1 ==> tr[k].returned[t] == TIMEOUT
    ensures !Outstanding(tr[k].calls.requests, t) && t !in tr[k].calls.spawned ==>
              (t in tr[k].returned || Enabled(tr[k], Receive(t), interval) <==> !CancelledCall(tr[k].calls, t))
  {
    hide Run, CallsInv, Outstanding, Count;
    ChannelsAreSafe(tr, moves, interval, max, k);
    var p := tr[k];
    assert Phase(p, t);
    if !Outstanding(p.calls.requests, t) && t !in p.calls.spawned { RanIff(p.calls, max, t); }
  }

  // ---------------------------------------------------------------- the writer

  /** The responses sent by writing `messages` one after the other. */
  function Responses(messages: seq<seq<nat>>): seq<seq<nat>> {
    if messages == [] then [] else messages[..1]
  }

  /** Answers one request; `sent` are the responses handed to the transferer. */
  class ResponseWriter {
    var send: bool
    var sent: seq<seq<nat>>
    ghost var written: seq<seq<nat>>

    /** However often it is written to, one response goes out, the first. */
    ghost predicate Valid()
      reads this
    {
      (send <==> written != []) && sent == Responses(written)
    }

    constructor ()
      ensures Valid() && written == []
    {
      send, sent, written := false, [], [];
    }

    /** Refused once a response has been written, by the handler or by the finalizer. */
    method Write(message: seq<nat>) returns (ok: bool)
      requires Valid()
      modifies this
      ensures Valid() && written == old(written) + [message]
      ensures ok <==> old(sent) == []
      ensures |sent| == 1 && (!ok ==> sent == old(sent))
    {
      written := written + [message];
      if send {
        return false;
      }
      send := true;
      sent := sent + [message];
      ok := true;
    }
  }
}

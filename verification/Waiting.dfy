/** Spread.Post waiting for its relays: a counter that each relay's handler decrements
    (node/internal/wait_any/wait_any.go, node/internal/spread/spread.go). */
module Waiting {
  import opened Sets
  import opened Transferer
  import opened Handlers

  /** The fields of a WaitAny. */
  datatype Waiter = Waiter(remains: int, result: bool)

  function Announce(w: Waiter, delta: int): Waiter {
    w.(remains := w.remains + delta)
  }

  function Report(w: Waiter, ok: bool): Waiter {
    Waiter(w.remains - 1, w.result || ok)
  }

  /** Wait returns. */
  predicate Released(w: Waiter) {
    w.result || w.remains == 0
  }

  /** For its users a WaitAny is how many reports are announced and which have come in. */
  class WaitAny {
    var remains: int
    var result: bool
    ghost var announced: int
    ghost var reports: seq<bool>

    ghost function Value(): Waiter
      reads this
    {
      Waiter(remains, result)
    }

    ghost predicate Valid()
      reads this
    {
      remains == announced - |reports| && (result <==> true in reports)
    }

    constructor ()
      ensures Valid() && announced == 0 && reports == [] && Value() == Waiter(0, false)
    {
      remains, result := 0, false;
      announced, reports := 0, [];
    }

    method Add(delta: int)
      requires Valid()
      modifies this
      ensures Valid() && announced == old(announced) + delta && reports == old(reports)
      ensures Value() == Announce(old(Value()), delta)
    {
      remains := remains + delta;
      announced := announced + delta;
    }

    /** Panics on a report that was not announced. */
    method Done(ok: bool)
      requires Valid() && |reports| < announced
      modifies this
      ensures Valid() && announced == old(announced) && reports == old(reports) + [ok]
      ensures Value() == Report(old(Value()), ok)
    {
      remains := remains - 1;
      if ok {
        result := true;
      }
      reports := reports + [ok];
    }

    /** Waits while the reports `incoming` arrive: returns on the first success, or once all announced
        reports are in, and otherwise goes on waiting. The result is whether any report was a success. */
    method Wait(incoming: seq<bool>) returns (returned: bool, r: bool, used: nat)
      requires Valid() && |reports| + |incoming| <= announced
      modifies this
      ensures Valid() && announced == old(announced)
      ensures used <= |incoming| && reports == old(reports) + incoming[..used]
      ensures returned <==> true in reports || |reports| == announced
      ensures returned ==> r == (true in reports)
      ensures used > 0 ==> true !in old(reports) + incoming[..used - 1] && |old(reports)| + used - 1 < announced
      ensures !returned ==> used == |incoming|
    {
      used := 0;
      while !result && remains != 0
        invariant Valid() && announced == old(announced)
        invariant used <= |incoming| && reports == old(reports) + incoming[..used]
        invariant used > 0 ==> true !in old(reports) + incoming[..used - 1] && |old(reports)| + used - 1 < announced
        decreases |incoming| - used
      {
        if used == |incoming| {
          return false, false, used;
        }
        assert incoming[..used + 1] == incoming[..used] + [incoming[used]];
        Done(incoming[used]);
        used := used + 1;
      }
      return true, result, used;
    }
  }

  /** The handlers, the counter, and what the handlers that have run reported to it. */
  datatype Post = Post(calls: Calls, w: Waiter, reports: seq<bool>)

  const START := Post(NOCALLS, Waiter(0, false), [])

  datatype Move = Relay(id: nat, now: int) | Other(step: Step) | RunHandler(i: nat, ok: bool)

  /** The handler of a timed out request reports a failure. */
  ghost predicate Enabled(p: Post, m: Move, interval: int) {
    match m
    case Relay(id, now) => Transferer.Enabled(p.calls.requests, Request(id, true, now), interval)
    case Other(step) => Transferer.Enabled(p.calls.requests, step, interval)
    case RunHandler(i, ok) =>
      i < |p.calls.spawned| && (ok ==> Count(p.calls.requests.log, TimedOut(p.calls.spawned[i])) == 0)
  }

  ghost function Apply(p: Post, m: Move, interval: int, max: nat): Post
    requires Enabled(p, m, interval)
  {
    match m
    case Relay(id, now) => p.(calls := Watch(p.calls, id, now, max), w := Announce(p.w, 1))
    case Other(step) => p.(calls := Happen(p.calls, step, max))
    case RunHandler(i, ok) => Post(Begin(p.calls, i), Report(p.w, ok), p.reports + [ok])
  }

  /** The counter is the number of relays whose handler has not run, and the result whether one of
      those that have reported a success. */
  ghost predicate Inv(p: Post, max: nat) {
    && CallsInv(p.calls, max)
    && |p.reports| == |p.calls.ran|
    && p.w.remains == |p.calls.watched| - |p.calls.ran|
    && (p.w.result <==> true in p.reports)
  }

  lemma MoveKeeps(p: Post, m: Move, interval: int, max: nat)
    requires Inv(p, max) && Enabled(p, m, interval)
    ensures Inv(Apply(p, m, interval, max), max)
  {
    hide CallsInv, Transferer.Apply;
    match m
    case Relay(id, now) =>
      WatchKeeps(p.calls, id, now, max);
      NewToken(p.calls, max);
    case Other(step) => HappenKeeps(p.calls, step, interval, max);
    case RunHandler(i, ok) => BeginKeeps(p.calls, i, max);
  }

  lemma NewToken(c: Calls, max: nat)
    requires CallsInv(c, max)
    ensures c.requests.issued !in c.watched
  {}

  ghost predicate Run(tr: seq<Post>, moves: seq<Move>, interval: int, max: nat) {
    && |tr| == |moves| + 1 && tr[0] == START
    && forall k :: 0 <= k < |moves| ==>
         Enabled(tr[k], moves[k], interval) && tr[k + 1] == Apply(tr[k], moves[k], interval, max)
  }

  lemma {:induction false} RunKeeps(tr: seq<Post>, moves: seq<Move>, interval: int, max: nat, k: nat)
    requires Run(tr, moves, interval, max) && k < |tr|
    ensures Inv(tr[k], max)
  {
    hide Inv, Apply;
    if k == 0 {
      StartPost(max);
    } else {
      RunKeeps(tr, moves, interval, max, k - 1);
      assert tr[k - 1 + 1] == Apply(tr[k - 1], moves[k - 1], interval, max);
      MoveKeeps(tr[k - 1], moves[k - 1], interval, max);
    }
  }

  lemma StartPost(max: nat)
    ensures Inv(START, max)
  {
    StartInv(max);
  }

  // ---------------------------------------------------------------- release

  /** All relays are closed and their handlers have run. */
  ghost predicate Finished(p: Post) {
    p.calls.spawned == [] && forall t :: t in p.calls.watched ==> !Outstanding(p.calls.requests, t)
  }

  /** Over every run: Done never panics; Wait is released with a failure only when every relay's handler
      has run and none reported a success; and once all relays are closed and their handlers have run,
      Wait is released exactly when a relay succeeded or none was cancelled. */
  lemma PostWaits(tr: seq<Post>, moves: seq<Move>, interval: int, max: nat, k: nat)
    requires Run(tr, moves, interval, max) && k < |tr|
    ensures tr[k].w.remains >= 0 && (tr[k].calls.spawned != [] ==> tr[k].w.remains > 0)
    ensures tr[k].w.result <==> true in tr[k].reports
    ensures Released(tr[k].w) && !tr[k].w.result ==> Members(tr[k].calls.ran) == tr[k].calls.watched
    ensures Finished(tr[k]) ==>
              (Released(tr[k].w) <==> tr[k].w.result || !exists t :: CancelledCall(tr[k].calls, t))
  {
    hide Inv, Run, CancelledCall, Outstanding;
    RunKeeps(tr, moves, interval, max, k);
    CounterIs(tr[k], max);
    if Finished(tr[k]) { AllClosed(tr[k], max); }
  }

  /** Nobody cancels a relay, so every post is released once its relays are closed. */
  lemma UncancelledPostReturns(tr: seq<Post>, moves: seq<Move>, interval: int, max: nat, k: nat)
    requires Run(tr, moves, interval, max) && k < |tr|
    requires forall j :: 0 <= j < k ==> !(moves[j].Other? && moves[j].step.Cancel?)
    ensures Finished(tr[k]) ==> Released(tr[k].w)
  {
    hide Inv, Run, Released, Finished;
    PostWaits(tr, moves, interval, max, k);
    forall t: nat ensures !CancelledCall(tr[k].calls, t) { NoneCancelled(tr, moves, interval, max, k, t); }
  }

  lemma {:induction false} NoneCancelled(tr: seq<Post>, moves: seq<Move>, interval: int, max: nat, k: nat, t: nat)
    requires Run(tr, moves, interval, max) && k < |tr|
    requires forall j :: 0 <= j < k ==> !(moves[j].Other? && moves[j].step.Cancel?)
    ensures Count(tr[k].calls.requests.log, Cancelled(t)) == 0
  {
    hide Transferer.Apply, Spawned;
    if k > 0 {
      NoneCancelled(tr, moves, interval, max, k - 1, t);
      var c := tr[k - 1].calls.requests;
      assert tr[k - 1 + 1] == Apply(tr[k - 1], moves[k - 1], interval, max);
      match moves[k - 1]
      case Relay(id, now) => StepCancels(c, Request(id, true, now), max, t);
      case Other(step) => StepCancels(c, step, max, t);
      case RunHandler(_, _) =>
    }
  }

  lemma CounterIs(p: Post, max: nat)
    requires Inv(p, max)
    ensures Members(p.calls.ran) <= p.calls.watched
    ensures p.w.remains == |p.calls.watched| - |Members(p.calls.ran)| >= |p.calls.spawned|
    ensures p.w.result <==> true in p.reports
    ensures p.w.remains == 0 ==> Members(p.calls.ran) == p.calls.watched
  {
    hide Transferer.Inv, Callbacks;
    var c := p.calls;
    DistinctCard(c.spawned + c.ran, c.watched);
    forall t | t in c.ran ensures t in c.watched { assert t in c.spawned + c.ran; }
    DistinctTail(c.spawned, c.ran);
    RanCard(c.ran);
    if Members(c.ran) != c.watched {
      var t :| t in c.watched && t !in Members(c.ran);
      StrictSubsetCard(Members(c.ran), c.watched, t);
    }
  }

  lemma DistinctTail(a: seq<nat>, b: seq<nat>)
    requires Distinct(a + b)
    ensures Distinct(b)
  {
    assert forall k :: 0 <= k < |b| ==> (a + b)[|a| + k] == b[k];
  }

  lemma AllClosed(p: Post, max: nat)
    requires Inv(p, max) && Finished(p)
    ensures p.w.remains == 0 <==> !exists t :: CancelledCall(p.calls, t)
  {
    hide CallsInv, Outstanding;
    var c := p.calls;
    var done := Members(c.ran);
    CounterIs(p, max);
    forall t ensures t in done <==> t in c.watched && !CancelledCall(c, t) { RanIff(c, max, t); }
    if exists t :: CancelledCall(c, t) {
      var t :| CancelledCall(c, t);
      SubsetCard(done, c.watched - {t});
    } else {
      assert done == c.watched;
    }
  }
}

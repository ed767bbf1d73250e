/** The handlers of the requests that somebody waits for, from the step that spawns them to the moment
    they run (node/internal/network/transferer/transferer.go). */
module Handlers {
  import opened Transferer

  /** The requests, the tokens somebody waits for, and of their handlers those spawned and those that
      have begun to run. */
  datatype Calls = Calls(requests: State, watched: set<nat>, spawned: seq<nat>, ran: seq<nat>)

  const NOCALLS := Calls(START, {}, [], [])

  /** A request somebody waits for is issued. */
  function Watch(c: Calls, id: nat, now: int, max: nat): Calls {
    c.(watched := c.watched + {c.requests.issued}, requests := Apply(c.requests, Request(id, true, now), max))
  }

  /** The handler call a step spawns, if somebody waits for it. */
  function Spawned(c: Calls, step: Step, max: nat): seq<nat>
    requires step.Expire? ==> step.id in c.requests.records
  {
    if step.Request? || step.Cancel? || step.id !in c.requests.records then []
    else
      var r := c.requests.records[step.id];
      if r.token in c.watched && (step.Respond? || r.tryCount > max) then [r.token] else []
  }

  function Happen(c: Calls, step: Step, max: nat): Calls
    requires step.Expire? ==> step.id in c.requests.records
  {
    c.(requests := Apply(c.requests, step, max), spawned := c.spawned + Spawned(c, step, max))
  }

  /** The `i`-th spawned handler begins to run. */
  function Begin(c: Calls, i: nat): Calls
    requires i < |c.spawned|
  {
    c.(spawned := c.spawned[..i] + c.spawned[i + 1..], ran := c.ran + [c.spawned[i]])
  }

  ghost predicate Distinct(s: seq<nat>) {
    forall i, j :: 0 <= i < j < |s| ==> s[i] != s[j]
  }

  /** The handlers spawned and run are those of watched requests called back, each once. */
  ghost predicate CallsInv(c: Calls, max: nat) {
    && Inv(c.requests, max)
    && Distinct(c.spawned + c.ran)
    && (forall t :: t in c.watched ==> t < c.requests.issued)
    && (forall t :: t in c.spawned + c.ran <==> t in c.watched && Callbacks(c.requests.log, t) == 1)
  }

  // ---------------------------------------------------------------- every step keeps the invariant

  lemma WatchKeeps(c: Calls, id: nat, now: int, max: nat)
    requires CallsInv(c, max) && id != 0 && id !in c.requests.records
    ensures CallsInv(Watch(c, id, now, max), max)
  {
    hide Apply, Inv, Distinct;
    var c' := Watch(c, id, now, max);
    RequestKeeps(c.requests, id, true, now, max);
    RequestEffect(c.requests, id, now, max);
    assert c.requests.issued !in c.watched;
    forall t ensures t in c'.spawned + c'.ran <==> t in c'.watched && Callbacks(c'.requests.log, t) == 1 {
      assert t in c.spawned + c.ran <==> t in c.watched && Callbacks(c.requests.log, t) == 1;
    }
  }

  lemma RequestEffect(s: State, id: nat, now: int, max: nat)
    requires Inv(s, max) && id !in s.records
    ensures var s' := Apply(s, Request(id, true, now), max);
            && s'.issued == s.issued + 1
            && (forall t: nat :: t < s.issued ==> Callbacks(s'.log, t) == Callbacks(s.log, t))
            && Callbacks(s'.log, s.issued) == 0
  {
    OnlyOwn(s.log, Sent(s.issued));
    OwnToken(s.log, Sent(s.issued));
    assert Unused(s.log, s.issued);
    forall t: nat | t < s.issued ensures Callbacks(s.log + [Sent(s.issued)], t) == Callbacks(s.log, t) {
      assert SameHistory(s.log, s.log + [Sent(s.issued)], t);
    }
  }

  /** What a step does to the number of callbacks of a watched request. */
  lemma StepEffect(c: Calls, step: Step, interval: int, max: nat, t: nat)
    requires Inv(c.requests, max) && Enabled(c.requests, step, interval)
    requires t in c.watched && t < c.requests.issued
    ensures var s, s' := c.requests, Apply(c.requests, step, max);
            Callbacks(s'.log, t) == if Spawned(c, step, max) == [t] then 1 else Callbacks(s.log, t)
    ensures Spawned(c, step, max) == [t] ==> Callbacks(c.requests.log, t) == 0
  {
    hide Count, Callbacks, Closings, Unused, Closed;
    var s := c.requests;
    if step.Request? {
      LogEffect(s.log, Sent(s.issued), t);
    } else if step.id in s.records {
      var r := s.records[step.id];
      assert Open(s.log, r, max);
      match step
      case Expire(id, now) =>
        if r.tryCount > max {
          GiveUp(s.log, r, max);
          GivenUpCalls(s.log, r, max);
          assert t != r.token ==> SameHistory(s.log, s.log + [Expired(r.token), TimedOut(r.token)], t);
        } else {
          LogEffect(s.log, Expired(r.token), t);
          LogEffect(s.log + [Expired(r.token)], Sent(r.token), t);
          assert s.log + [Expired(r.token)] + [] == s.log + [Expired(r.token)];
        }
      case Respond(id) => LogEffect(s.log, Answered(r.token), t);
      case Cancel(id) => LogEffect(s.log, Cancelled(r.token), t);
    }
  }

  lemma LogEffect(log: seq<Entry>, x: Entry, t: nat)
    ensures Callbacks(log + [x], t) == Callbacks(log, t) + if x == Answered(t) || x == TimedOut(t) then 1 else 0
  {
    CountAppend(log, x, Answered(t));
    CountAppend(log, x, TimedOut(t));
  }

  lemma SpawnedShape(c: Calls, step: Step, max: nat)
    requires step.Expire? ==> step.id in c.requests.records
    ensures var n := Spawned(c, step, max); n == [] || (|n| == 1 && n == [n[0]] && n[0] in c.watched)
  {}

  lemma GivenUpCalls(log: seq<Entry>, r: Record, max: nat)
    requires Open(log, r, max)
    ensures Callbacks(log + [Expired(r.token), TimedOut(r.token)], r.token) == 1
  {
    OwnToken(log, Expired(r.token));
    OwnToken(log + [Expired(r.token)], TimedOut(r.token));
    assert log + [Expired(r.token)] + [TimedOut(r.token)] == log + [Expired(r.token), TimedOut(r.token)];
  }

  lemma HappenKeeps(c: Calls, step: Step, interval: int, max: nat)
    requires CallsInv(c, max) && Enabled(c.requests, step, interval)
    ensures CallsInv(Happen(c, step, max), max)
  {
    hide Apply, Inv, Spawned;
    var c', calls := Happen(c, step, max), Spawned(c, step, max);
    StepKeeps(c.requests, step, interval, max);
    SpawnedShape(c, step, max);
    IssuedGrows(c.requests, step, max);
    if calls == [] {
      assert c.spawned + [] == c.spawned;
    } else {
      StepEffect(c, step, interval, max, calls[0]);
      SpawnOne(c.spawned, c.ran, calls[0]);
    }
    forall t ensures t in c'.spawned + c'.ran <==> t in c'.watched && Callbacks(c'.requests.log, t) == 1 {
      assert t in c.spawned + c.ran <==> t in c.watched && Callbacks(c.requests.log, t) == 1;
      if t in c.watched { StepEffect(c, step, interval, max, t); }
    }
  }

  lemma IssuedGrows(s: State, step: Step, max: nat)
    requires step.Expire? ==> step.id in s.records
    ensures Apply(s, step, max).issued >= s.issued
  {}

  lemma SpawnOne(a: seq<nat>, b: seq<nat>, t: nat)
    requires Distinct(a + b) && t !in a + b
    ensures Distinct(a + [t] + b)
    ensures forall x :: x in a + [t] + b <==> x == t || x in a + b
  {
    var s, s' := a + b, a + [t] + b;
    forall i, j | 0 <= i < j < |s'| ensures s'[i] != s'[j] {
      var i', j' := if i <= |a| then i else i - 1, if j <= |a| then j else j - 1;
      if i != |a| && j != |a| { assert s'[i] == s[i'] && s'[j] == s[j']; }
      if i == |a| { assert s'[j] == s[j - 1]; }
      if j == |a| { assert s'[i] == s[i]; }
    }
    forall x | x in a + b ensures x in s' {
      var k :| 0 <= k < |s| && s[k] == x;
      if k < |a| { assert s'[k] == x; } else { assert s'[k + 1] == x; }
    }
    assert s'[|a|] == t;
  }

  lemma MoveOne(a: seq<nat>, b: seq<nat>, i: nat)
    requires Distinct(a + b) && i < |a|
    ensures var a', b' := a[..i] + a[i + 1..], b + [a[i]];
            Distinct(a' + b') && forall x :: x in a' + b' <==> x in a + b
  {
    var s, s' := a + b, a[..i] + a[i + 1..] + (b + [a[i]]);
    assert |s'| == |s|;
    var n := |s| - 1;
    assert forall k :: 0 <= k < n ==> s'[k] == if k < i then s[k] else s[k + 1];
    assert s'[n] == s[i];
    forall j, k | 0 <= j < k < |s'| ensures s'[j] != s'[k] {
      assert s'[j] == s[if j < i then j else j + 1];
      assert s'[k] == s[if k == n then i else if k < i then k else k + 1];
    }
    forall x | x in s ensures x in s' {
      var k :| 0 <= k < |s| && s[k] == x;
      if k < i { assert s'[k] == x; } else if k > i { assert s'[k - 1] == x; } else { assert s'[n] == x; }
    }
  }

  lemma BeginKeeps(c: Calls, i: nat, max: nat)
    requires CallsInv(c, max) && i < |c.spawned|
    ensures CallsInv(Begin(c, i), max)
    ensures c.spawned[i] in c.watched && c.spawned[i] !in c.ran && c.spawned[i] !in Begin(c, i).spawned
  {
    hide Inv, Callbacks;
    var t := c.spawned[i];
    assert (c.spawned + c.ran)[i] == t;
    NoRepeat(c.spawned, c.ran, i);
    hide Distinct;
    MoveOne(c.spawned, c.ran, i);
  }

  lemma NoRepeat(a: seq<nat>, b: seq<nat>, i: nat)
    requires Distinct(a + b) && i < |a|
    ensures a[i] !in b && a[i] !in a[..i] + a[i + 1..]
  {
    var s := a + b;
    assert forall k :: 0 <= k < |a| ==> s[k] == a[k];
    assert forall k :: 0 <= k < |b| ==> s[|a| + k] == b[k];
  }

  // ---------------------------------------------------------------- who is never called

  ghost predicate CancelledCall(c: Calls, t: nat) {
    t in c.watched && Count(c.requests.log, Cancelled(t)) == 1
  }

  /** Of a watched request that is closed and has no handler waiting, the handler has run exactly
      unless the request was cancelled. */
  lemma RanIff(c: Calls, max: nat, t: nat)
    requires CallsInv(c, max) && t !in c.spawned && (t in c.watched ==> !Outstanding(c.requests, t))
    ensures t in c.ran <==> t in c.watched && !CancelledCall(c, t)
  {
    hide Callbacks, Count, Distinct;
    assert t in c.spawned + c.ran <==> t in c.watched && Callbacks(c.requests.log, t) == 1;
    if t in c.watched { assert Closed(c.requests.log, t, max); }
  }

  lemma StepCancels(s: State, step: Step, max: nat, t: nat)
    requires !step.Cancel? && (step.Expire? ==> step.id in s.records)
    ensures Count(Apply(s, step, max).log, Cancelled(t)) == Count(s.log, Cancelled(t))
  {
    hide Count;
    match step
    case Request(_, _, _) => CountAppend(s.log, Sent(s.issued), Cancelled(t));
    case Expire(id, _) =>
      var r := s.records[id];
      var log1 := s.log + [Expired(r.token)];
      CountAppend(s.log, Expired(r.token), Cancelled(t));
      CountAppend(log1, TimedOut(r.token), Cancelled(t));
      CountAppend(log1, Sent(r.token), Cancelled(t));
      assert log1 + [TimedOut(r.token)] == s.log + [Expired(r.token), TimedOut(r.token)];
      assert log1 + [] == log1;
    case Respond(id) => if id in s.records { CountAppend(s.log, Answered(s.records[id].token), Cancelled(t)); }
    case Cancel(_) =>
  }

  /** Nothing leaves the log. */
  lemma CountGrows(s: State, step: Step, max: nat, e: Entry)
    requires step.Expire? ==> step.id in s.records
    ensures Count(Apply(s, step, max).log, e) >= Count(s.log, e)
  {
    hide Count;
    if step.Request? {
      CountAppend(s.log, Sent(s.issued), e);
    } else if step.id in s.records {
      var t := s.records[step.id].token;
      var log1 := s.log + [Expired(t)];
      CountAppend(s.log, Answered(t), e);
      CountAppend(s.log, Cancelled(t), e);
      CountAppend(s.log, Expired(t), e);
      CountAppend(log1, TimedOut(t), e);
      CountAppend(log1, Sent(t), e);
      assert log1 + [TimedOut(t)] == s.log + [Expired(t), TimedOut(t)] && log1 + [] == log1;
    }
  }

  // ---------------------------------------------------------------- counting

  lemma {:induction false} DistinctCard(s: seq<nat>, within: set<nat>)
    requires Distinct(s) && forall t :: t in s ==> t in within
    ensures |s| <= |within|
  {
    if s != [] {
      var n := |s| - 1;
      assert s[n] !in s[..n];
      DistinctCard(s[..n], within - {s[n]});
    }
  }

  function Members(s: seq<nat>): set<nat> {
    set t | t in s
  }

  lemma {:induction false} RanCard(s: seq<nat>)
    requires Distinct(s)
    ensures |Members(s)| == |s|
  {
    if s != [] {
      var n := |s| - 1;
      RanCard(s[..n]);
      assert s[n] !in s[..n];
      assert Members(s) == Members(s[..n]) + {s[n]};
    }
  }
}

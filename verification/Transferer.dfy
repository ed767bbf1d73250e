/** Requests awaiting a response: retry, timeout, response and cancellation
    (node/internal/network/transferer/transferer.go). */
module Transferer {

  /** A request waiting for its response. `token` numbers the calls of Request. */
  datatype Record = Record(token: nat, tryCount: nat, lastSend: int, retry: bool)

  /** What has happened to a request: a packet was sent, the retry interval was found to have passed,
      its handler was called with a response or with a timeout, or it was cancelled. */
  datatype Entry =
    | Sent(token: nat)
    | Expired(token: nat)
    | Answered(token: nat)
    | TimedOut(token: nat)
    | Cancelled(token: nat)

  datatype State = State(records: map<nat, Record>, issued: nat, log: seq<Entry>)

  const START := State(map[], 0, [])

  // ---------------------------------------------------------------- steps

  datatype Step =
    | Request(id: nat, retry: bool, now: int)
    | Expire(id: nat, now: int)
    | Respond(id: nat)
    | Cancel(id: nat)

  /** Request picks an unused identifier other than 0; a record expires once its interval is over. */
  predicate Enabled(s: State, step: Step, interval: int) {
    match step
    case Request(id, _, _) => id != 0 && id !in s.records
    case Expire(id, now) => id in s.records && now >= s.records[id].lastSend + interval
    case Respond(_) => true
    case Cancel(_) => true
  }

  /** The record of a request that is tried again. */
  function Tried(r: Record, now: int): Record {
    r.(tryCount := r.tryCount + 1, lastSend := now)
  }

  function Apply(s: State, step: Step, max: nat): State
    requires step.Expire? ==> step.id in s.records
  {
    match step
    case Request(id, retry, now) =>
      State(s.records[id := Record(s.issued, 1, now, retry)], s.issued + 1, s.log + [Sent(s.issued)])
    case Expire(id, now) =>
      var r := s.records[id];
      if r.tryCount > max then
        s.(records := s.records - {id}, log := s.log + [Expired(r.token), TimedOut(r.token)])
      else
        s.(records := s.records[id := Tried(r, now)],
           log := s.log + [Expired(r.token)] + (if r.retry then [Sent(r.token)] else []))
    case Respond(id) =>
      if id in s.records then s.(records := s.records - {id}, log := s.log + [Answered(s.records[id].token)]) else s
    case Cancel(id) =>
      if id in s.records then s.(records := s.records - {id}, log := s.log + [Cancelled(s.records[id].token)]) else s
  }

  ghost predicate Run(tr: seq<State>, steps: seq<Step>, interval: int, max: nat) {
    && |tr| == |steps| + 1 && tr[0] == START
    && forall k :: 0 <= k < |steps| ==> Enabled(tr[k], steps[k], interval) && tr[k + 1] == Apply(tr[k], steps[k], max)
  }

  // ---------------------------------------------------------------- counting

  function Count(log: seq<Entry>, e: Entry): nat {
    if log == [] then 0 else Count(log[..|log| - 1], e) + if log[|log| - 1] == e then 1 else 0
  }

  lemma CountAppend(log: seq<Entry>, x: Entry, e: Entry)
    ensures Count(log + [x], e) == Count(log, e) + if x == e then 1 else 0
  {
    assert (log + [x])[..|log|] == log;
  }

  /** Calls of the request's handler. */
  function Callbacks(log: seq<Entry>, t: nat): nat {
    Count(log, Answered(t)) + Count(log, TimedOut(t))
  }

  function Closings(log: seq<Entry>): nat {
    if log == [] then 0
    else
      var e := log[|log| - 1];
      Closings(log[..|log| - 1]) + if e.Answered? || e.TimedOut? || e.Cancelled? then 1 else 0
  }

  lemma ClosingsAppend(log: seq<Entry>, x: Entry)
    ensures Closings(log + [x]) == Closings(log) + if x.Answered? || x.TimedOut? || x.Cancelled? then 1 else 0
  {
    assert (log + [x])[..|log|] == log;
  }

  // ---------------------------------------------------------------- invariant

  /** The history of token `t` when its record is `r`. */
  ghost predicate Open(log: seq<Entry>, r: Record, max: nat) {
    var t := r.token;
    && Callbacks(log, t) == 0 && Count(log, Cancelled(t)) == 0
    && 1 <= r.tryCount <= max + 1
    && Count(log, Expired(t)) == r.tryCount - 1
    && Count(log, Sent(t)) == if r.retry then r.tryCount else 1
  }

  /** The history of a token whose record is gone. */
  ghost predicate Closed(log: seq<Entry>, t: nat, max: nat) {
    && Callbacks(log, t) + Count(log, Cancelled(t)) == 1
    && Count(log, Expired(t)) <= max + 1
    && Count(log, Sent(t)) <= max + 1
    && (Count(log, TimedOut(t)) == 1 <==> Count(log, Expired(t)) == max + 1)
  }

  ghost predicate Unused(log: seq<Entry>, t: nat) {
    Callbacks(log, t) == 0 && Count(log, Cancelled(t)) == 0 && Count(log, Expired(t)) == 0 && Count(log, Sent(t)) == 0
  }

  ghost predicate Outstanding(s: State, t: nat) {
    exists id :: id in s.records && s.records[id].token == t
  }

  ghost predicate Inv(s: State, max: nat) {
    && (forall i, j :: i in s.records && j in s.records && s.records[i].token == s.records[j].token ==> i == j)
    && (forall id :: id in s.records ==> id != 0 && s.records[id].token < s.issued && Open(s.log, s.records[id], max))
    && (forall t: nat :: t < s.issued && !Outstanding(s, t) ==> Closed(s.log, t, max))
    && (forall t: nat :: t >= s.issued ==> Unused(s.log, t))
    && s.issued == |s.records| + Closings(s.log)
  }

  ghost predicate SameHistory(log: seq<Entry>, log': seq<Entry>, t: nat) {
    && Callbacks(log', t) == Callbacks(log, t) && Count(log', Cancelled(t)) == Count(log, Cancelled(t))
    && Count(log', Expired(t)) == Count(log, Expired(t)) && Count(log', Sent(t)) == Count(log, Sent(t))
    && Count(log', TimedOut(t)) == Count(log, TimedOut(t))
  }

  /** Only the history of `t0` differs. */
  ghost predicate Only(log: seq<Entry>, log': seq<Entry>, t0: nat) {
    forall t: nat :: t != t0 ==> SameHistory(log, log', t)
  }

  lemma OnlyOwn(log: seq<Entry>, x: Entry)
    ensures Only(log, log + [x], x.token)
  {
    forall t: nat | t != x.token ensures SameHistory(log, log + [x], t) {
      CountAppend(log, x, Answered(t));
      CountAppend(log, x, TimedOut(t));
      CountAppend(log, x, Cancelled(t));
      CountAppend(log, x, Expired(t));
      CountAppend(log, x, Sent(t));
    }
  }

  lemma OnlyTwice(log: seq<Entry>, x: Entry, y: Entry)
    requires x.token == y.token
    ensures Only(log, log + [x, y], x.token)
  {
    OnlyOwn(log, x);
    OnlyOwn(log + [x], y);
    assert log + [x] + [y] == log + [x, y];
    forall t: nat | t != x.token ensures SameHistory(log, log + [x, y], t) {
      assert SameHistory(log, log + [x], t) && SameHistory(log + [x], log + [x] + [y], t);
    }
  }

  lemma OwnToken(log: seq<Entry>, x: Entry)
    ensures var t, log' := x.token, log + [x];
            && Callbacks(log', t) == Callbacks(log, t) + (if x.Answered? || x.TimedOut? then 1 else 0)
            && Count(log', Cancelled(t)) == Count(log, Cancelled(t)) + (if x.Cancelled? then 1 else 0)
            && Count(log', Expired(t)) == Count(log, Expired(t)) + (if x.Expired? then 1 else 0)
            && Count(log', Sent(t)) == Count(log, Sent(t)) + (if x.Sent? then 1 else 0)
            && Count(log', TimedOut(t)) == Count(log, TimedOut(t)) + (if x.TimedOut? then 1 else 0)
            && Closings(log') == Closings(log) + (if x.Answered? || x.TimedOut? || x.Cancelled? then 1 else 0)
  {
    var t := x.token;
    CountAppend(log, x, Answered(t));
    CountAppend(log, x, TimedOut(t));
    CountAppend(log, x, Cancelled(t));
    CountAppend(log, x, Expired(t));
    CountAppend(log, x, Sent(t));
    ClosingsAppend(log, x);
  }

  // ---------------------------------------------------------------- every step keeps the invariant

  /** A record goes, its token's history being closed. */
  lemma RemoveKeeps(s: State, id: nat, log': seq<Entry>, max: nat)
    requires Inv(s, max) && id in s.records
    requires Only(s.log, log', s.records[id].token) && Closed(log', s.records[id].token, max)
    requires Closings(log') == Closings(s.log) + 1
    ensures Inv(s.(records := s.records - {id}, log := log'), max)
  {
    hide Closed, Open, Unused, SameHistory;
    var t0, s' := s.records[id].token, s.(records := s.records - {id}, log := log');
    forall j | j in s'.records ensures Open(log', s'.records[j], max) {
      OpenSame(s.log, log', s.records[j], max);
    }
    forall t: nat | t < s'.issued && !Outstanding(s', t) ensures Closed(log', t, max) {
      if t != t0 {
        StillOutstanding(s, s', t);
        ClosedSame(s.log, log', t, max);
      }
    }
    forall t: nat | t >= s'.issued ensures Unused(log', t) { UnusedSame(s.log, log', t); }
    assert (s.records - {id}).Keys == s.records.Keys - {id};
  }

  lemma StillOutstanding(s: State, s': State, t: nat)
    requires forall j :: j in s.records && s.records[j].token == t ==> j in s'.records && s'.records[j].token == t
    ensures Outstanding(s, t) ==> Outstanding(s', t)
  {
    if Outstanding(s, t) {
      var j :| j in s.records && s.records[j].token == t;
      assert j in s'.records;
    }
  }

  lemma OpenSame(log: seq<Entry>, log': seq<Entry>, r: Record, max: nat)
    requires Open(log, r, max) && SameHistory(log, log', r.token)
    ensures Open(log', r, max)
  {}

  lemma ClosedSame(log: seq<Entry>, log': seq<Entry>, t: nat, max: nat)
    requires Closed(log, t, max) && SameHistory(log, log', t)
    ensures Closed(log', t, max)
  {}

  lemma UnusedSame(log: seq<Entry>, log': seq<Entry>, t: nat)
    requires Unused(log, t) && SameHistory(log, log', t)
    ensures Unused(log', t)
  {}

  /** A record changes and stays open. */
  lemma UpdateKeeps(s: State, id: nat, r: Record, log': seq<Entry>, max: nat)
    requires Inv(s, max) && id in s.records && r.token == s.records[id].token
    requires Only(s.log, log', r.token) && Open(log', r, max) && Closings(log') == Closings(s.log)
    ensures Inv(s.(records := s.records[id := r], log := log'), max)
  {
    hide Closed, Open, Unused, SameHistory;
    var s' := s.(records := s.records[id := r], log := log');
    forall j | j in s'.records ensures Open(log', s'.records[j], max) {
      if j != id { OpenSame(s.log, log', s.records[j], max); }
    }
    forall t: nat | t < s'.issued && !Outstanding(s', t) ensures Closed(log', t, max) {
      StillOutstanding(s, s', t);
      assert Outstanding(s', r.token) by { assert id in s'.records; }
      ClosedSame(s.log, log', t, max);
    }
    forall t: nat | t >= s'.issued ensures Unused(log', t) { UnusedSame(s.log, log', t); }
    assert s'.records.Keys == s.records.Keys;
  }

  lemma RequestKeeps(s: State, id: nat, retry: bool, now: int, max: nat)
    requires Inv(s, max) && id != 0 && id !in s.records
    ensures Inv(Apply(s, Request(id, retry, now), max), max)
  {
    hide Closed, SameHistory, Open, Unused, Outstanding, Closings, Count;
    var s' := Apply(s, Request(id, retry, now), max);
    FirstSend(s.log, s'.records[id], max);
    OnlyOwn(s.log, Sent(s.issued));
    forall j | j in s'.records ensures Open(s'.log, s'.records[j], max) {
      if j != id { OpenSame(s.log, s'.log, s.records[j], max); }
    }
    forall t: nat | t < s'.issued && !Outstanding(s', t) ensures Closed(s'.log, t, max) {
      RequestOutstanding(s, id, retry, now, max, t);
      ClosedSame(s.log, s'.log, t, max);
    }
    forall t: nat | t >= s'.issued ensures Unused(s'.log, t) { UnusedSame(s.log, s'.log, t); }
    OneMore(s.records, id, s'.records[id]);
  }

  lemma RequestOutstanding(s: State, id: nat, retry: bool, now: int, max: nat, t: nat)
    requires id !in s.records
    ensures Outstanding(Apply(s, Request(id, retry, now), max), t) <==> t == s.issued || Outstanding(s, t)
  {
    var s' := Apply(s, Request(id, retry, now), max);
    assert id in s'.records && s'.records[id].token == s.issued;
    StillOutstanding(s, s', t);
    if Outstanding(s', t) && t != s.issued {
      var j :| j in s'.records && s'.records[j].token == t;
      assert j in s.records;
    }
  }

  lemma OneMore(records: map<nat, Record>, id: nat, r: Record)
    requires id !in records
    ensures |records[id := r]| == |records| + 1
  {
    assert records[id := r].Keys == records.Keys + {id};
  }

  lemma FirstSend(log: seq<Entry>, r: Record, max: nat)
    requires Unused(log, r.token) && r.tryCount == 1
    ensures Open(log + [Sent(r.token)], r, max) && Closings(log + [Sent(r.token)]) == Closings(log)
  {
    OwnToken(log, Sent(r.token));
  }

  lemma Retry(log: seq<Entry>, r: Record, now: int, max: nat)
    requires Open(log, r, max) && r.tryCount <= max
    ensures var log' := log + [Expired(r.token)] + (if r.retry then [Sent(r.token)] else []);
            && Open(log', Tried(r, now), max)
            && Closings(log') == Closings(log) && Only(log, log', r.token)
  {
    hide SameHistory;
    var t, log1 := r.token, log + [Expired(r.token)];
    OwnToken(log, Expired(t));
    OnlyOwn(log, Expired(t));
    if r.retry {
      OwnToken(log1, Sent(t));
      OnlyTwice(log, Expired(t), Sent(t));
      assert log1 + [Sent(t)] == log + [Expired(t), Sent(t)];
    } else {
      assert log1 + [] == log1;
    }
  }

  lemma GiveUp(log: seq<Entry>, r: Record, max: nat)
    requires Open(log, r, max) && r.tryCount > max
    ensures var log' := log + [Expired(r.token), TimedOut(r.token)];
            && Closed(log', r.token, max) && Closings(log') == Closings(log) + 1 && Only(log, log', r.token)
  {
    hide SameHistory;
    var t, log1 := r.token, log + [Expired(r.token)];
    OwnToken(log, Expired(t));
    OwnToken(log1, TimedOut(t));
    OnlyTwice(log, Expired(t), TimedOut(t));
    assert log1 + [TimedOut(t)] == log + [Expired(t), TimedOut(t)];
  }

  lemma ExpireKeeps(s: State, id: nat, now: int, max: nat)
    requires Inv(s, max) && id in s.records
    ensures Inv(Apply(s, Expire(id, now), max), max)
  {
    hide Closed, Open, Unused, Only;
    var r := s.records[id];
    if r.tryCount > max {
      GiveUp(s.log, r, max);
      RemoveKeeps(s, id, s.log + [Expired(r.token), TimedOut(r.token)], max);
    } else {
      Retry(s.log, r, now, max);
      UpdateKeeps(s, id, Tried(r, now),
                  s.log + [Expired(r.token)] + (if r.retry then [Sent(r.token)] else []), max);
    }
  }

  lemma CloseHistory(log: seq<Entry>, x: Entry, r: Record, max: nat)
    requires Open(log, r, max) && x.token == r.token && (x.Answered? || x.Cancelled?)
    ensures Closed(log + [x], r.token, max)
  {
    OwnToken(log, x);
  }

  lemma CloseKeeps(s: State, id: nat, x: Entry, max: nat)
    requires Inv(s, max) && id in s.records && x.token == s.records[id].token && (x.Answered? || x.Cancelled?)
    ensures Inv(s.(records := s.records - {id}, log := s.log + [x]), max)
  {
    hide Only, Callbacks, Count, Closings, Unused;
    OwnToken(s.log, x);
    OnlyOwn(s.log, x);
    assert Open(s.log, s.records[id], max);
    CloseHistory(s.log, x, s.records[id], max);
    RemoveKeeps(s, id, s.log + [x], max);
  }

  lemma StepKeeps(s: State, step: Step, interval: int, max: nat)
    requires Inv(s, max) && Enabled(s, step, interval)
    ensures Inv(Apply(s, step, max), max)
  {
    hide Inv;
    match step
    case Request(id, retry, now) => RequestKeeps(s, id, retry, now, max);
    case Expire(id, now) => ExpireKeeps(s, id, now, max);
    case Respond(id) => if id in s.records { CloseKeeps(s, id, Answered(s.records[id].token), max); }
    case Cancel(id) => if id in s.records { CloseKeeps(s, id, Cancelled(s.records[id].token), max); }
  }

  lemma {:induction false} RunKeeps(tr: seq<State>, steps: seq<Step>, interval: int, max: nat, k: nat)
    requires Run(tr, steps, interval, max) && k < |tr|
    ensures Inv(tr[k], max)
  {
    hide Inv, Apply;
    if k == 0 {
      StartInv(max);
    } else {
      RunKeeps(tr, steps, interval, max, k - 1);
      assert tr[k - 1 + 1] == Apply(tr[k - 1], steps[k - 1], max);
      StepKeeps(tr[k - 1], steps[k - 1], interval, max);
    }
  }

  lemma StartInv(max: nat)
    ensures Inv(START, max)
  {}

  /** Over every run: each request's handler is called at most once, its packet is sent at most
      `max + 1` times, it is found expired at most `max + 1` times and times out only at the last of
      them; and the requests issued are those outstanding, answered, timed out or cancelled. */
  lemma RequestHistory(tr: seq<State>, steps: seq<Step>, interval: int, max: nat, k: nat, t: nat)
    requires Run(tr, steps, interval, max) && k < |tr|
    ensures var log := tr[k].log;
            && Callbacks(log, t) <= 1 && Callbacks(log, t) + Count(log, Cancelled(t)) <= 1
            && Count(log, Sent(t)) <= max + 1 && Count(log, Expired(t)) <= max + 1
            && (Count(log, TimedOut(t)) == 1 <==> Count(log, Expired(t)) == max + 1)
    ensures tr[k].issued == |tr[k].records| + Closings(tr[k].log)
  {
    RunKeeps(tr, steps, interval, max, k);
    TokenHistory(tr[k], max, t);
  }

  lemma TokenHistory(s: State, max: nat, t: nat)
    requires Inv(s, max)
    ensures Callbacks(s.log, t) + Count(s.log, Cancelled(t)) <= 1
    ensures Count(s.log, Sent(t)) <= max + 1 && Count(s.log, Expired(t)) <= max + 1
    ensures Count(s.log, TimedOut(t)) == 1 <==> Count(s.log, Expired(t)) == max + 1
  {
    hide Callbacks, Count, Closings;
    if t >= s.issued {
      assert Unused(s.log, t);
      CallbackParts(s.log, t);
    } else if Outstanding(s, t) {
      var id :| id in s.records && s.records[id].token == t;
      assert Open(s.log, s.records[id], max);
      CallbackParts(s.log, t);
    } else {
      assert Closed(s.log, t, max);
    }
  }

  lemma CallbackParts(log: seq<Entry>, t: nat)
    ensures Count(log, TimedOut(t)) <= Callbacks(log, t)
  {}

  // ---------------------------------------------------------------- time

  /** When request `t` was issued and then found expired, during the first `k` steps of a run. */
  ghost function Times(tr: seq<State>, steps: seq<Step>, k: nat, t: nat): seq<int>
    requires k <= |steps| && |tr| == |steps| + 1
  {
    if k == 0 then []
    else Times(tr, steps, k - 1, t) + Moment(tr[k - 1], steps[k - 1], t)
  }

  ghost function Moment(s: State, step: Step, t: nat): seq<int> {
    match step
    case Request(_, _, now) => if s.issued == t then [now] else []
    case Expire(id, now) => if id in s.records && s.records[id].token == t then [now] else []
    case _ => []
  }

  ghost predicate Spaced(times: seq<int>, interval: int) {
    forall i :: 0 <= i < |times| - 1 ==> times[i + 1] - times[i] >= interval
  }

  /** The moments of `t` are spaced, the last one is the one its record remembers, and they are its issue
      and its expiries. */
  ghost predicate Timed(s: State, times: seq<int>, interval: int, t: nat) {
    && Spaced(times, interval)
    && (forall id :: id in s.records && s.records[id].token == t ==>
          times != [] && times[|times| - 1] == s.records[id].lastSend)
    && |times| == Count(s.log, Expired(t)) + (if t < s.issued then 1 else 0)
  }

  lemma StepTimed(s: State, step: Step, times: seq<int>, interval: int, max: nat, t: nat)
    requires Inv(s, max) && Enabled(s, step, interval) && Timed(s, times, interval, t)
    ensures Timed(Apply(s, step, max), times + Moment(s, step, t), interval, t)
  {
    hide Count, Open, Closed, Unused, Closings;
    var s' := Apply(s, step, max);
    StepExpired(s, step, max, t);
    assert times + [] == times;
    if step.Request? && s.issued == t {
      assert Unused(s.log, t);
      NoExpiry(s.log, t);
    }
  }

  lemma NoExpiry(log: seq<Entry>, t: nat)
    requires Unused(log, t)
    ensures Count(log, Expired(t)) == 0
  {}

  lemma StepExpired(s: State, step: Step, max: nat, t: nat)
    requires step.Expire? ==> step.id in s.records
    ensures Count(Apply(s, step, max).log, Expired(t)) ==
            Count(s.log, Expired(t)) + if step.Expire? && s.records[step.id].token == t then 1 else 0
  {
    hide Count;
    match step
    case Request(_, _, _) => CountAppend(s.log, Sent(s.issued), Expired(t));
    case Expire(id, _) =>
      var r := s.records[id];
      var log1 := s.log + [Expired(r.token)];
      CountAppend(s.log, Expired(r.token), Expired(t));
      CountAppend(log1, TimedOut(r.token), Expired(t));
      CountAppend(log1, Sent(r.token), Expired(t));
      assert log1 + [TimedOut(r.token)] == s.log + [Expired(r.token), TimedOut(r.token)] && log1 + [] == log1;
    case Respond(id) => if id in s.records { CountAppend(s.log, Answered(s.records[id].token), Expired(t)); }
    case Cancel(id) => if id in s.records { CountAppend(s.log, Cancelled(s.records[id].token), Expired(t)); }
  }

  lemma {:induction false} RunTimed(tr: seq<State>, steps: seq<Step>, interval: int, max: nat, k: nat, t: nat)
    requires Run(tr, steps, interval, max) && k < |tr|
    ensures Timed(tr[k], Times(tr, steps, k, t), interval, t)
  {
    hide Inv, Timed, Apply;
    if k == 0 {
      StartTimed(interval, t);
    } else {
      RunTimed(tr, steps, interval, max, k - 1, t);
      RunKeeps(tr, steps, interval, max, k - 1);
      assert tr[k - 1 + 1] == Apply(tr[k - 1], steps[k - 1], max);
      StepTimed(tr[k - 1], steps[k - 1], Times(tr, steps, k - 1, t), interval, max, t);
    }
  }

  lemma StartTimed(interval: int, t: nat)
    ensures Timed(START, [], interval, t)
  {}

  lemma {:induction false} SpacedSpan(times: seq<int>, interval: int)
    requires times != [] && Spaced(times, interval)
    ensures times[|times| - 1] - times[0] >= (|times| - 1) * interval
  {
    var n := |times| - 1;
    if n > 0 {
      SpacedSpan(times[..n], interval);
      assert times[..n][n - 1] == times[n - 1] && times[n - 1 + 1] - times[n - 1] >= interval;
      assert n * interval == (n - 1) * interval + interval;
    }
  }

  /** Over every run: a request is found expired no sooner than `interval` after it was issued or last
      found so, and times out no sooner than `max + 1` intervals after it was issued. */
  lemma ExpiriesAreSpaced(tr: seq<State>, steps: seq<Step>, interval: int, max: nat, k: nat, t: nat)
    requires Run(tr, steps, interval, max) && k < |tr|
    ensures var times := Times(tr, steps, k, t);
            && (forall i :: 0 <= i < |times| - 1 ==> times[i + 1] - times[i] >= interval)
            && |times| == Count(tr[k].log, Expired(t)) + (if t < tr[k].issued then 1 else 0)
            && (Count(tr[k].log, TimedOut(t)) == 1 ==>
                  |times| == max + 2 && times[max + 1] - times[0] >= (max + 1) * interval)
  {
    hide Count, Enabled, Apply, Inv, Times;
    RunTimed(tr, steps, interval, max, k, t);
    RequestHistory(tr, steps, interval, max, k, t);
    RunKeeps(tr, steps, interval, max, k);
    var times := Times(tr, steps, k, t);
    if Count(tr[k].log, TimedOut(t)) == 1 {
      TimedOutIsIssued(tr[k], max, t);
      SpacedSpan(times, interval);
    }
  }

  lemma TimedOutIsIssued(s: State, max: nat, t: nat)
    requires Inv(s, max) && Count(s.log, TimedOut(t)) == 1
    ensures t < s.issued
  {
    hide Count;
    if t >= s.issued {
      assert Unused(s.log, t);
      CallbackParts(s.log, t);
    }
  }

  // ---------------------------------------------------------------- the object

  /** Some run ends in `s`. */
  ghost predicate Reachable(s: State, interval: int, max: nat) {
    exists tr, steps :: Run(tr, steps, interval, max) && tr[|tr| - 1] == s
  }

  lemma StartReachable(interval: int, max: nat)
    ensures Reachable(START, interval, max)
  {
    assert Run([START], [], interval, max);
    assert [START][0] == START;
  }

  lemma StepReachable(s: State, step: Step, interval: int, max: nat)
    requires Reachable(s, interval, max) && Enabled(s, step, interval)
    ensures Reachable(Apply(s, step, max), interval, max)
  {
    hide Apply;
    var tr, steps :| Run(tr, steps, interval, max) && tr[|tr| - 1] == s;
    var s' := Apply(s, step, max);
    var tr', steps' := tr + [s'], steps + [step];
    forall k | 0 <= k < |steps'|
      ensures Enabled(tr'[k], steps'[k], interval) && tr'[k + 1] == Apply(tr'[k], steps'[k], max)
    {
      if k < |steps| { assert tr'[k + 1] == tr[k + 1]; }
    }
    assert Run(tr', steps', interval, max) && tr'[|tr'| - 1] == s';
  }

  /** `s'` comes from `s` by the expiry of the records `order` one after the other. */
  ghost predicate Expiries(s: State, order: seq<nat>, s': State, now: int, interval: int, max: nat)
    decreases |order|
  {
    if order == [] then s' == s
    else
      var n := |order| - 1;
      exists m :: Expiries(s, order[..n], m, now, interval, max) && Enabled(m, Expire(order[n], now), interval) &&
                  s' == Apply(m, Expire(order[n], now), max)
  }

  lemma OneExpiry(s: State, order: seq<nat>, m: State, id: nat, now: int, interval: int, max: nat)
    requires Expiries(s, order, m, now, interval, max) && Enabled(m, Expire(id, now), interval)
    ensures Expiries(s, order + [id], Apply(m, Expire(id, now), max), now, interval, max)
  {
    assert (order + [id])[..|order|] == order;
  }

  lemma {:induction false} ExpiriesReachable(s: State, order: seq<nat>, s': State, now: int, interval: int, max: nat)
    requires Reachable(s, interval, max) && Expiries(s, order, s', now, interval, max)
    ensures Reachable(s', interval, max)
    decreases |order|
  {
    hide Reachable, Apply;
    if order != [] {
      var n := |order| - 1;
      var m :| Expiries(s, order[..n], m, now, interval, max) && Enabled(m, Expire(order[n], now), interval) &&
               s' == Apply(m, Expire(order[n], now), max);
      ExpiriesReachable(s, order[..n], m, now, interval, max);
      StepReachable(m, Expire(order[n], now), interval, max);
    }
  }

  class Requests {
    const max: nat
    const interval: int
    var records: map<nat, Record>
    var issued: nat
    ghost var log: seq<Entry>

    ghost function St(): State
      reads this
    {
      State(records, issued, log)
    }

    /** The object has taken the steps of some run. */
    ghost predicate Valid()
      reads this
    {
      Reachable(St(), interval, max)
    }

    constructor (max: nat, interval: int)
      ensures this.max == max && this.interval == interval && St() == START && Valid()
    {
      this.max, this.interval, records := max, interval, map[];
      issued, log := 0, [];
      new;
      StartReachable(interval, max);
    }

    /** Registers a request under an unused identifier and sends its packet once. */
    method Issue(id: nat, retry: bool, now: int)
      requires Valid() && id != 0 && id !in records
      modifies this
      ensures St() == Apply(old(St()), Request(id, retry, now), max) && Valid()
      ensures records == old(records)[id := Record(old(issued), 1, now, retry)] && issued == old(issued) + 1
      ensures log == old(log) + [Sent(old(issued))]
    {
      hide Reachable;
      StepReachable(St(), Request(id, retry, now), interval, max);
      records := records[id := Record(issued, 1, now, retry)];
      log := log + [Sent(issued)];
      issued := issued + 1;
    }

    /** A response: its record is deleted and its handler called; without a record it is ignored. */
    method Receive(id: nat) returns (called: bool)
      requires Valid()
      modifies this
      ensures St() == Apply(old(St()), Respond(id), max) && Valid()
      ensures called <==> id in old(records)
      ensures records == old(records) - {id} && issued == old(issued)
      ensures log == old(log) + (if called then [Answered(old(records)[id].token)] else [])
    {
      hide Reachable;
      StepReachable(St(), Respond(id), interval, max);
      called := id in records;
      if called {
        log := log + [Answered(records[id].token)];
        records := records - {id};
      }
    }

    /** A request is given up by the caller: its record is deleted and its handler never called. */
    method CancelRequest(id: nat)
      requires Valid()
      modifies this
      ensures St() == Apply(old(St()), Cancel(id), max) && Valid()
      ensures records == old(records) - {id} && issued == old(issued)
      ensures log == old(log) + (if id in old(records) then [Cancelled(old(records)[id].token)] else [])
    {
      hide Reachable;
      StepReachable(St(), Cancel(id), interval, max);
      if id in records {
        log := log + [Cancelled(records[id].token)];
        records := records - {id};
      }
    }

    /** The periodic pass: every record whose interval is over is retried or given up, once, by expiry
        steps in some order; the others are left alone. */
    method SubRoutine(now: int) returns (ghost order: seq<nat>)
      requires Valid()
      modifies this
      ensures Valid() && Expiries(old(St()), order, St(), now, interval, max)
      ensures forall i, j :: 0 <= i < j < |order| ==> order[i] != order[j]
      ensures forall id :: id in order <==> id in old(records) && now >= old(records)[id].lastSend + interval
      ensures forall id :: id in records ==> id in old(records)
      ensures forall id :: id in old(records) && now < old(records)[id].lastSend + interval ==>
                id in records && records[id] == old(records)[id]
      ensures forall id :: id in old(records) && now >= old(records)[id].lastSend + interval ==>
                if old(records)[id].tryCount > max then id !in records
                else
                  var r := old(records)[id];
                  id in records && records[id] == Record(r.token, r.tryCount + 1, now, r.retry)
    {
      hide Reachable, Expiries;
      var todo := records.Keys;
      order := [];
      assert Expiries(St(), order, St(), now, interval, max) by { NoneExpired(St(), now, interval, max); }
      while todo != {}
        invariant Expiries(old(St()), order, St(), now, interval, max)
        invariant forall i, j :: 0 <= i < j < |order| ==> order[i] != order[j]
        invariant forall id :: id in order <==>
                    id in old(records) && id !in todo && now >= old(records)[id].lastSend + interval
        invariant todo <= records.Keys <= old(records).Keys
        invariant forall id :: id in todo ==> records[id] == old(records)[id]
        invariant forall id :: id in old(records) && id !in todo ==>
                    if now < old(records)[id].lastSend + interval then id in records && records[id] == old(records)[id]
                    else if old(records)[id].tryCount > max then id !in records
                    else id in records && records[id] == Tried(old(records)[id], now)
      {
        var id :| id in todo;
        var r := records[id];
        if now >= r.lastSend + interval {
          OneExpiry(old(St()), order, St(), id, now, interval, max);
          order := order + [id];
          if r.tryCount > max {
            records := records - {id};
            log := log + [Expired(r.token), TimedOut(r.token)];
          } else {
            log := log + [Expired(r.token)] + (if r.retry then [Sent(r.token)] else []);
            records := records[id := Tried(r, now)];
          }
        }
        todo := todo - {id};
      }
      ExpiriesReachable(old(St()), order, St(), now, interval, max);
    }

    static lemma NoneExpired(s: State, now: int, interval: int, max: nat)
      ensures Expiries(s, [], s, now, interval, max)
    {}
  }
}

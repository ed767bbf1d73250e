/** The hop limit: however the routing tables look, a packet and what it provokes die out
    (node/internal/network/network.go, node/internal/network/transferer/transferer.go). */
module Hops {

  import opened Bits
  import opened NodeIds

  /** Hop count and one-way flag, all that matters here. */
  datatype Packet = Packet(hops: nat, oneWay: bool)

  /** What the node holding the packet decides: pass it on, hand it to the local handler, which may
      reply, or find that nobody receives it. */
  datatype Decision = Forward | Accept(reply: bool) | NoOneReceives

  /** checkHopCount on 32-bit counters: the new count of a packet that a receiver accepts. */
  function Arrive(hops: nat, limit: nat): Option<nat> {
    if hops > limit % U32 then None else Some((hops + 1) % U32)
  }

  /** The hop counter of a packet on its way. */
  class Counter {
    const limit: nat
    var hopCount: nat
    /** How many receivers have accepted the packet. */
    ghost var accepted: nat

    /** The counter counts the receivers modulo 2^32, and they are no more than the limit allows unless
        the limit is all ones. */
    ghost predicate Valid()
      reads this
    {
      hopCount == accepted % U32 && (limit % U32 != U32 - 1 ==> accepted <= limit % U32 + 1)
    }

    constructor (limit: nat)
      ensures Valid() && this.limit == limit && accepted == 0
    {
      this.limit, hopCount, accepted := limit, 0, 0;
    }

    /** One more receiver accepts, or the packet is dropped: below an all-ones limit exactly when
        `limit + 1` receivers have accepted it. */
    method CheckHopCount() returns (ok: bool)
      requires Valid()
      modifies this
      ensures Valid() && accepted == old(accepted) + (if ok then 1 else 0)
      ensures Arrive(old(hopCount), limit) == if ok then Some(hopCount) else None
      ensures ok <==> limit % U32 == U32 - 1 || old(accepted) <= limit % U32
    {
      if hopCount > limit % U32 {
        return false;
      }
      NextCount(accepted);
      hopCount := (hopCount + 1) % U32;
      accepted := accepted + 1;
      ok := true;
    }
  }

  lemma NextCount(n: nat)
    ensures (n % U32 + 1) % U32 == (n + 1) % U32
  {}

  /** Responses and errors are new one-way packets; a one-way packet gets neither. */
  function ReplyTo(p: Packet, d: Decision): (r: seq<Packet>)
    ensures |r| <= 1 && forall q :: q in r ==> q == Packet(0, true)
    ensures r != [] <==> !p.oneWay && (d == Accept(true) || d.NoOneReceives?)
  {
    if !p.oneWay && ((d.Accept? && d.reply) || d.NoOneReceives?) then [Packet(0, true)] else []
  }

  /** Link transmissions caused by a packet held by some node, the nodes that come to hold it or its
      reply deciding as `ds` says. */
  function Transmissions(p: Packet, limit: nat, ds: seq<Decision>): nat
    decreases |ds|
  {
    if ds == [] then 0
    else if ds[0].Forward? then
      var next := Arrive(p.hops, limit);
      1 + (if next.None? then 0 else Transmissions(p.(hops := next.value), limit, ds[1..]))
    else
      var r := ReplyTo(p, ds[0]);
      if r == [] then 0 else Transmissions(r[0], limit, ds[1..])
  }

  /** Receivers that accept a packet as it is passed on again and again. */
  function Acceptances(hops: nat, limit: nat, arrivals: nat): nat
    decreases arrivals
  {
    var next := Arrive(hops, limit);
    if arrivals == 0 || next.None? then 0 else 1 + Acceptances(next.value, limit, arrivals - 1)
  }

  lemma {:induction false} AcceptancesBound(hops: nat, limit: nat, arrivals: nat)
    requires limit % U32 != U32 - 1
    ensures hops <= limit % U32 + 1 ==> Acceptances(hops, limit, arrivals) <= limit % U32 + 1 - hops
    decreases arrivals
  {
    if arrivals > 0 && hops <= limit % U32 { AcceptancesBound(hops + 1, limit, arrivals - 1); }
  }

  lemma {:induction false} AcceptancesUnbounded(hops: nat, limit: nat, arrivals: nat)
    requires limit % U32 == U32 - 1 && hops < U32
    ensures Acceptances(hops, limit, arrivals) == arrivals
    decreases arrivals
  {
    if arrivals > 0 { AcceptancesUnbounded((hops + 1) % U32, limit, arrivals - 1); }
  }

  /** A packet is accepted by at most `limit + 1` receivers however long it is passed on, exactly unless
      the 32-bit limit is all ones: then the counter wraps before it can exceed the limit. */
  lemma HopLimitHoldsIff(limit: nat)
    ensures (forall n :: Acceptances(0, limit, n) <= limit % U32 + 1) <==> limit % U32 != U32 - 1
  {
    if limit % U32 != U32 - 1 {
      forall n: nat ensures Acceptances(0, limit, n) <= limit % U32 + 1 { AcceptancesBound(0, limit, n); }
    } else {
      AcceptancesUnbounded(0, limit, U32 + 1);
      assert Acceptances(0, limit, U32 + 1) == U32 + 1;
    }
  }

  /** One injected packet causes at most `limit + 2` transmissions, and as many again for the one
      response or error it may provoke; those provoke nothing. */
  lemma {:induction false} TransmissionsBound(p: Packet, limit: nat, ds: seq<Decision>)
    requires limit % U32 != U32 - 1 && p.hops <= limit % U32 + 1
    ensures Transmissions(p, limit, ds) <= (limit % U32 + 2 - p.hops) + (if p.oneWay then 0 else limit % U32 + 2)
    decreases |ds|
  {
    if ds != [] {
      if ds[0].Forward? {
        if p.hops <= limit % U32 { TransmissionsBound(p.(hops := p.hops + 1), limit, ds[1..]); }
      } else if ReplyTo(p, ds[0]) != [] {
        assert ReplyTo(p, ds[0])[0] in ReplyTo(p, ds[0]);
        TransmissionsBound(Packet(0, true), limit, ds[1..]);
      }
    }
  }
}

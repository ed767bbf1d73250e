/** A link between two nodes: its send queue, its reassembly stack and its state
    (node/internal/network/node_accessor/node_link.go). */
module NodeLink {
  import opened Bits
  import opened NodeIds
  import opened Fragments

  /** A container as sent: within the size limit, only its last fragment may be a non-final one, and
      such a fragment fills the container exactly. */
  ghost predicate Sealed(c: Container, base: nat) {
    && c != [] && |Contents(c)| <= base
    && (forall j :: 0 <= j < |c| - 1 ==> c[j].head.Some?)
    && (c[|c| - 1].head.None? ==> |Contents(c)| == base)
  }

  ghost predicate AllSealed(cs: seq<Container>, base: nat) {
    forall c :: c in cs ==> Sealed(c, base)
  }

  /** The container being filled: complete packets only. */
  ghost predicate Open(c: Container, used: nat, base: nat) {
    |Contents(c)| == used <= base && forall j :: 0 <= j < |c| ==> c[j].head.Some?
  }

  lemma SealPartial(c: Container, f: Fragment, used: nat, base: nat)
    requires Open(c, used, base) && used + |f.content| == base
    ensures Sealed(c + [f], base)
  {
    ContentsAppend(c, f);
  }

  lemma OpenAppend(c: Container, f: Fragment, used: nat, base: nat)
    requires Open(c, used, base) && used + |f.content| <= base && f.head.Some?
    ensures Open(c + [f], used + |f.content|, base)
  {
    ContentsAppend(c, f);
  }

  /** Bytes left, counting those already in the container, when index `i` is next. */
  ghost predicate LeftAt(w: Packet, used0: nat, base: nat, i: nat, sent: nat, used: nat)
    requires base > 0
  {
    var n := Count(used0, |w.content|, base);
    sent <= |w.content| && i < n && |w.content| - sent + used == used0 + |w.content| - (n - 1 - i) * base
    && Spans(i, base, |w.content| - sent + used)
  }

  lemma LeftInit(w: Packet, used0: nat, base: nat)
    requires used0 <= base && base > 0 && used0 + |w.content| > base
    ensures LeftAt(w, used0, base, Count(used0, |w.content|, base) - 1, 0, used0)
  {
    CountBounds(used0, |w.content|, base);
  }

  lemma LeftStep(w: Packet, used0: nat, base: nat, i: nat, sent: nat, used: nat)
    requires base > 0 && used <= base && LeftAt(w, used0, base, i, sent, used) && i > 0
    ensures PieceSize(|w.content| - sent, used, base) == base - used
    ensures LeftAt(w, used0, base, i - 1, sent + (base - used), 0)
  {
    SplitSize(i, base, |w.content| - sent, used);
    var n := Count(used0, |w.content|, base);
    assert (n - 1 - (i - 1)) * base == (n - 1 - i) * base + base;
  }

  lemma LeftLast(w: Packet, used0: nat, base: nat, sent: nat, used: nat)
    requires used0 <= base && base > 0 && used <= base && LeftAt(w, used0, base, 0, sent, used)
    requires used0 + |w.content| > base
    ensures PieceSize(|w.content| - sent, used, base) == |w.content| - sent
    ensures used + (|w.content| - sent) == UsedAfter(used0, |w.content|, base)
  {
    SpansOne(base, |w.content| - sent + used);
  }

  /** The inner loop of flush: one packet over several containers. `capacity` is how many sends the
      transport will accept. */
  method SplitPacket(w: Packet, base: nat, sent0: seq<Container>, open0: Container, used0: nat, capacity: nat)
    returns (sent: seq<Container>, open: Container, used: nat, ok: bool)
    requires base > 0 && Open(open0, used0, base) && AllSealed(sent0, base) && |sent0| <= capacity
    requires used0 + |w.content| > base
    ensures AllSealed(sent, base) && |sent| <= capacity
    ensures ok ==> Flatten(sent) + open == Flatten(sent0) + open0 + PacketFragments(w, used0, base)
    ensures ok ==> used == UsedAfter(used0, |w.content|, base) && Open(open, used, base)
    ensures !ok ==> |sent| == capacity && Flatten(sent) <= Flatten(sent0) + open0 + PacketFragments(w, used0, base)
  {
    hide Open, Sealed, LeftAt, UsedAfter, Count, PacketFragments, Progress, AllSealed, Flatten;
    OpenIsBounded(open0, used0, base);
    ghost var goal := Flatten(sent0) + open0 + PacketFragments(w, used0, base);
    CountBounds(used0, |w.content|, base);
    LeftInit(w, used0, base);
    ProgressInit(w, base, sent0, open0, used0);
    var offset: nat;
    sent, open, used, offset, ok := SendPieces(w, base, goal, used0, sent0, open0, capacity);
    if ok {
      LeftLast(w, used0, base, offset, used);
      LeftFacts(w, used0, base, 0, offset, used);
      var size := |w.content| - offset;
      var f := Fragment(Some(w.head), w.id, 0, w.content[offset..offset + size]);
      ProgressEnd(w, base, goal, sent, open, offset, used, f);
      UsedBounded(used0, |w.content|, base);
      OpenAppend(open, f, used, base);
      open, used := open + [f], used + size;
    }
  }

  /** The fragments with index above 0, each closing and sending its container. */
  method SendPieces(w: Packet, base: nat, ghost goal: seq<Fragment>, used0: nat,
                    sent0: seq<Container>, open0: Container, capacity: nat)
    returns (sent: seq<Container>, open: Container, used: nat, offset: nat, ok: bool)
    requires base > 0 && used0 <= base && used0 + |w.content| > base && Count(used0, |w.content|, base) >= 1
    requires Open(open0, used0, base) && AllSealed(sent0, base) && |sent0| <= capacity
    requires LeftAt(w, used0, base, Count(used0, |w.content|, base) - 1, 0, used0)
    requires Progress(w, base, goal, sent0, open0, 0, Count(used0, |w.content|, base) - 1, used0)
    ensures AllSealed(sent, base) && |sent| <= capacity
    ensures ok ==> used <= base && Open(open, used, base) && LeftAt(w, used0, base, 0, offset, used)
    ensures ok ==> Progress(w, base, goal, sent, open, offset, 0, used)
    ensures !ok ==> |sent| == capacity && Flatten(sent) <= goal
  {
    hide Open, Sealed, LeftAt, Count, Progress, AllSealed, Flatten;
    sent, open, used, ok := sent0, open0, used0, true;
    var i: nat := Count(used0, |w.content|, base) - 1;
    offset := 0;
    while i > 0
      invariant used <= base && LeftAt(w, used0, base, i, offset, used)
      invariant Open(open, used, base) && AllSealed(sent, base) && |sent| <= capacity
      invariant Progress(w, base, goal, sent, open, offset, i, used)
    {
      LeftStep(w, used0, base, i, offset, used);
      LeftFacts(w, used0, base, i - 1, offset + (base - used), 0);
      var size := base - used;
      var f := Fragment(None, w.id, i % U32, w.content[offset..offset + size]);
      SealPartial(open, f, used, base);
      if |sent| == capacity {
        ok := false;
        ProgressPrefix(w, base, goal, sent, open, offset, i, used);
        return;
      }
      ProgressStep(w, base, goal, sent, open, offset, i, used, f);
      SealedAppend(sent, open + [f], base);
      sent, open, used, offset, i := sent + [open + [f]], [], 0, offset + size, i - 1;
      EmptyIsOpen(base);
    }
  }

  /** What has been emitted and what is still to come make up the whole. */
  ghost predicate Progress(w: Packet, base: nat, goal: seq<Fragment>, sent: seq<Container>, open: Container,
                           offset: nat, i: nat, used: nat)
  {
    offset <= |w.content| && used <= base && Flatten(sent) + open + Pieces(w, offset, i, used, base) == goal
  }

  lemma ProgressInit(w: Packet, base: nat, sent: seq<Container>, open: Container, used: nat)
    requires used <= base && base > 0 && used + |w.content| > base && Count(used, |w.content|, base) >= 1
    ensures Progress(w, base, Flatten(sent) + open + PacketFragments(w, used, base), sent, open,
                     0, Count(used, |w.content|, base) - 1, used)
  {}

  lemma ProgressPrefix(w: Packet, base: nat, goal: seq<Fragment>, sent: seq<Container>, open: Container,
                       offset: nat, i: nat, used: nat)
    requires Progress(w, base, goal, sent, open, offset, i, used)
    ensures Flatten(sent) <= goal
  {
    var rest := Pieces(w, offset, i, used, base);
    assert Flatten(sent) + open + rest == Flatten(sent) + (open + rest);
  }

  lemma ProgressStep(w: Packet, base: nat, goal: seq<Fragment>, sent: seq<Container>, open: Container,
                     offset: nat, i: nat, used: nat, f: Fragment)
    requires Progress(w, base, goal, sent, open, offset, i, used) && i > 0
    requires PieceSize(|w.content| - offset, used, base) == base - used
    requires offset + (base - used) <= |w.content|
    requires f == Fragment(None, w.id, i % U32, w.content[offset..offset + (base - used)])
    ensures Progress(w, base, goal, sent + [open + [f]], [], offset + (base - used), i - 1, 0)
  {
    hide Pieces, Flatten;
    var rest := Pieces(w, offset + (base - used), i - 1, 0, base);
    PiecesUnfold(w, offset, i, used, base);
    FlattenAppend(sent, open + [f]);
    Regroup(Flatten(sent), open, f, rest);
    assert Flatten(sent) + (open + [f]) + [] == Flatten(sent) + (open + [f]);
  }

  lemma ProgressEnd(w: Packet, base: nat, goal: seq<Fragment>, sent: seq<Container>, open: Container,
                    offset: nat, used: nat, f: Fragment)
    requires Progress(w, base, goal, sent, open, offset, 0, used)
    requires PieceSize(|w.content| - offset, used, base) == |w.content| - offset
    requires f == Fragment(Some(w.head), w.id, 0, w.content[offset..offset + (|w.content| - offset)])
    ensures Flatten(sent) + (open + [f]) == goal
  {
    hide Pieces, Flatten;
    PiecesUnfold(w, offset, 0, used, base);
    assert Flatten(sent) + open + [f] == Flatten(sent) + (open + [f]);
  }

  lemma SealedAppend(sent: seq<Container>, c: Container, base: nat)
    requires AllSealed(sent, base) && Sealed(c, base)
    ensures AllSealed(sent + [c], base)
  {}

  lemma OpenIsBounded(c: Container, used: nat, base: nat)
    requires Open(c, used, base)
    ensures used <= base
  {}

  lemma UsedBounded(used: nat, len: nat, base: nat)
    requires used <= base && base > 0
    ensures UsedAfter(used, len, base) <= base
  {}

  lemma EmptyIsOpen(base: nat)
    ensures Open([], 0, base)
  {}

  lemma LeftFacts(w: Packet, used0: nat, base: nat, i: nat, sent: nat, used: nat)
    requires base > 0 && LeftAt(w, used0, base, i, sent, used)
    ensures sent <= |w.content|
  {}

  lemma Regroup(a: seq<Fragment>, b: seq<Fragment>, f: Fragment, c: seq<Fragment>)
    ensures a + (b + [f]) + c == a + b + ([f] + c)
  {}

  lemma PrefixOf(a: seq<Fragment>, b: seq<Fragment>, goal: seq<Fragment>)
    requires a + b == goal
    ensures a <= goal
  {}

  /** The emitting part of flush over a whole queue. */
  method Emit(queue: seq<Packet>, base: nat, capacity: nat) returns (sent: seq<Container>, complete: bool)
    requires base > 0
    ensures AllSealed(sent, base) && |sent| <= capacity
    ensures complete ==> Flatten(sent) == Stream(queue, 0, base)
    ensures !complete ==> |sent| == capacity && Flatten(sent) <= Stream(queue, 0, base)
  {
    hide Open, Sealed, UsedAfter, PacketFragments, Flatten;
    sent, complete := [], true;
    var open: Container, used: nat := [], 0;
    EmptyIsOpen(base);
    FlattenEmpty();
    assert queue[0..] == queue;
    for k := 0 to |queue|
      invariant used <= base && Open(open, used, base) && AllSealed(sent, base) && |sent| <= capacity
      invariant Flatten(sent) + open + Stream(queue[k..], used, base) == Stream(queue, 0, base)
    {
      var w := queue[k];
      ghost var fs, used1 := PacketFragments(w, used, base), UsedAfter(used, |w.content|, base);
      ghost var rest := Stream(queue[k + 1..], used1, base);
      StreamStep(queue, k, used, base);
      ghost var before := Flatten(sent) + open;
      assert before + (fs + rest) == Stream(queue, 0, base);
      if used + |w.content| > base {
        var ok: bool;
        sent, open, used, ok := SplitPacket(w, base, sent, open, used, capacity);
        if !ok {
          assert Flatten(sent) <= before + fs <= Stream(queue, 0, base) by {
            assert before + fs + rest == before + (fs + rest);
          }
          return sent, false;
        }
        assert before + fs + rest == before + (fs + rest);
      } else {
        var f := Fragment(Some(w.head), w.id, 0, w.content);
        WholePacket(w, used, base);
        OpenAppend(open, f, used, base);
        Regroup(Flatten(sent), open, f, rest);
        open, used := open + [f], used + |w.content|;
      }
      OpenIsBounded(open, used, base);
    }
    assert queue[|queue|..] == [];
    if |open| != 0 {
      if |sent| == capacity {
        assert Flatten(sent) <= Stream(queue, 0, base) by { PrefixOf(Flatten(sent), open, Stream(queue, 0, base)); }
        return sent, false;
      }
      OpenSealed(open, used, base);
      FlattenAppend(sent, open);
      sent := sent + [open];
    }
  }

  lemma FlattenEmpty()
    ensures Flatten([]) == []
  {}

  lemma StreamStep(queue: seq<Packet>, k: nat, used: nat, base: nat)
    requires k < |queue| && used <= base && base > 0
    ensures Stream(queue[k..], used, base) ==
            PacketFragments(queue[k], used, base) +
            Stream(queue[k + 1..], UsedAfter(used, |queue[k].content|, base), base)
  {
    assert queue[k..][1..] == queue[k + 1..];
  }

  lemma WholePacket(w: Packet, used: nat, base: nat)
    requires used + |w.content| <= base && base > 0
    ensures PacketFragments(w, used, base) == [Fragment(Some(w.head), w.id, 0, w.content)]
    ensures UsedAfter(used, |w.content|, base) == used + |w.content|
  {}

  lemma OpenSealed(c: Container, used: nat, base: nat)
    requires Open(c, used, base) && c != []
    ensures Sealed(c, base)
  {}

  /** What the other end makes of one flush: everything, or after a failed send the packets completed
      so far, in order; nothing else, and no disconnect, as long as the fragment counts fit. */
  lemma FlushDelivers(queue: seq<Packet>, base: nat, sent: seq<Container>, r: Receiver)
    requires base > 0 && AllFit(queue, 0, base) && !r.broken && r.stack == []
    requires Flatten(sent) <= Stream(queue, 0, base)
    ensures var r' := RecvAll(r, Flatten(sent));
            && !r'.broken && r.delivered <= r'.delivered <= r.delivered + queue
            && (Flatten(sent) == Stream(queue, 0, base) ==> r'.stack == [] && r'.delivered == r.delivered + queue)
  {
    var all, fs := Stream(queue, 0, base), Flatten(sent);
    assert all == fs + all[|fs|..];
    RecvConcat(r, fs, all[|fs|..]);
    StreamRoundTrip(queue, 0, base, r);
    RecvMonotone(r, fs);
    RecvMonotone(RecvAll(r, fs), all[|fs|..]);
  }

  datatype LinkState = Connecting | Online | Disabled

  class Link {
    const base: nat
    const bufferInterval: nat
    var state: LinkState
    var queue: seq<Packet>
    var stack: seq<Fragment>
    var stackID: nat
    /** Packets handed to the upper layer. */
    var delivered: seq<Packet>

    constructor (base: nat, bufferInterval: nat)
      requires base > 0
      ensures this.base == base && this.bufferInterval == bufferInterval
      ensures state == Connecting && queue == [] && stack == [] && delivered == []
    {
      this.base, this.bufferInterval := base, bufferInterval;
      state, queue, stack, stackID, delivered := Connecting, [], [], 0, [];
    }

    /** Queues a packet, and flushes when there is no buffering or more than a container is queued. */
    method SendPacket(p: Packet, capacity: nat) returns (sent: seq<Container>)
      requires base > 0
      modifies this`queue, this`state
      ensures AllSealed(sent, base)
      ensures bufferInterval != 0 && TotalBytes(old(queue) + [p]) <= base ==>
                sent == [] && queue == old(queue) + [p] && state == old(state)
      ensures bufferInterval == 0 || TotalBytes(old(queue) + [p]) > base ==>
                match old(state)
                case Connecting => sent == [] && queue == old(queue) + [p] && state == Connecting
                case Disabled => sent == [] && queue == [] && state == Disabled
                case Online =>
                  && queue == [] && Flatten(sent) <= Stream(old(queue) + [p], 0, base)
                  && (state == Online ==> Flatten(sent) == Stream(old(queue) + [p], 0, base))
                  && (state != Online ==> state == Disabled && |sent| == capacity)
    {
      hide Stream, Flatten, AllFit;
      queue := queue + [p];
      if bufferInterval == 0 {
        sent := Flush(capacity);
        return;
      }
      var sum := 0;
      for i := 0 to |queue|
        invariant sum == TotalBytes(queue[..i])
      {
        assert queue[..i + 1] == queue[..i] + [queue[i]];
        sum := sum + |queue[i].content|;
      }
      assert queue[..|queue|] == queue;
      sent := [];
      if sum > base {
        sent := Flush(capacity);
      }
    }

    static function TotalBytes(queue: seq<Packet>): nat {
      if queue == [] then 0 else TotalBytes(queue[..|queue| - 1]) + |queue[|queue| - 1].content|
    }

    /** Connecting keeps the queue, disabled drops it, online sends it; a failed send disables. */
    method Flush(capacity: nat) returns (sent: seq<Container>)
      requires base > 0
      modifies this`queue, this`state
      ensures AllSealed(sent, base)
      ensures old(state) == Connecting ==> sent == [] && queue == old(queue) && state == Connecting
      ensures old(state) == Disabled ==> sent == [] && queue == [] && state == Disabled
      ensures old(state) == Online ==> queue == [] && Flatten(sent) <= Stream(old(queue), 0, base)
      ensures old(state) == Online && state == Online ==> Flatten(sent) == Stream(old(queue), 0, base)
      ensures old(state) == Online && state != Online ==> state == Disabled && |sent| == capacity
    {
      FlattenEmpty();
      match state {
        case Connecting =>
          sent := [];
        case Disabled =>
          queue := [];
          sent := [];
        case Online =>
          var waiting := queue;
          queue := [];
          var complete: bool;
          sent, complete := Emit(waiting, base, capacity);
          if !complete {
            state := Disabled;
          }
      }
    }

    ghost function Rx(): Receiver
      reads this
    {
      Receiver(stack, stackID, delivered, state == Disabled)
    }

    /** One received container, fragment by fragment, up to a disconnect. */
    method RecvData(c: Container)
      requires state != Disabled
      modifies this`stack, this`stackID, this`delivered, this`state
      ensures Rx() == RecvAll(old(Rx()), c)
      ensures state != Disabled ==> state == old(state)
    {
      hide RecvFragment;
      ghost var r0 := Rx();
      assert c[..0] == [];
      NothingReceived(r0);
      for i := 0 to |c|
        invariant state == old(state) && Rx() == RecvAll(r0, c[..i])
      {
        assert c[..i + 1] == c[..i] + [c[i]];
        RecvConcat(r0, c[..i], [c[i]]);
        RecvCons(Rx(), c[i], []);
        assert [c[i]] + [] == [c[i]];
        NothingReceived(RecvFragment(Rx(), c[i]));
        RecvOne(c[i]);
        if state == Disabled {
          assert c == c[..i + 1] + c[i + 1..];
          RecvConcat(r0, c[..i + 1], c[i + 1..]);
          BrokenStays(Rx(), c[i + 1..]);
          return;
        }
      }
      assert c[..|c|] == c;
    }

    static lemma {:induction false} BrokenStays(r: Receiver, fs: seq<Fragment>)
      requires r.broken
      ensures RecvAll(r, fs) == r
    {
      if fs != [] { BrokenStays(r, fs[1..]); }
    }

    method RecvOne(packet: Fragment)
      requires state != Disabled
      modifies this`stack, this`stackID, this`delivered, this`state
      ensures Rx() == RecvFragment(old(Rx()), packet)
      ensures state != Disabled ==> state == old(state)
    {
      if stack != [] && stackID != packet.id {
        state := Disabled;
        return;
      }
      if packet.index != 0 {
        if stack == [] {
          stackID := packet.id;
        }
        stack := stack + [packet];
        return;
      }
      var packets := stack + [packet];
      stack := [];
      var content := CheckRun(packets);
      if content.None? {
        state := Disabled;
        return;
      }
      assert packets[|packets| - 1] == packet;
      delivered := delivered + [Packet(packet.head.value, packet.id, content.value)];
    }

    static lemma ContentsEmpty()
      ensures Contents([]) == []
    {}

    /** The format check of a complete run, which also joins its contents. */
    static method CheckRun(packets: seq<Fragment>) returns (content: Option<seq<Byte>>)
      ensures content == if WellFormedRun(packets) then Some(Contents(packets)) else None
    {
      hide Contents;
      var joined: seq<Byte> := [];
      assert packets[..0] == [];
      ContentsEmpty();
      for i := 0 to |packets|
        invariant joined == Contents(packets[..i])
        invariant forall j :: 0 <= j < i ==>
                    packets[j].index == (|packets| - j - 1) % U32 && (packets[j].index == 0 <==> packets[j].head.Some?)
      {
        if packets[i].index != (|packets| - i - 1) % U32 {
          return None;
        }
        if (packets[i].index == 0 && packets[i].head.None?) || (packets[i].index != 0 && packets[i].head.Some?) {
          return None;
        }
        assert packets[..i + 1] == packets[..i] + [packets[i]];
        ContentsAppend(packets[..i], packets[i]);
        joined := joined + packets[i].content;
      }
      assert packets[..|packets|] == packets;
      return Some(joined);
    }
  }
}

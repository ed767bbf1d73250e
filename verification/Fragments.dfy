/** Packing packets into bounded containers and rebuilding them at the other end of a link
    (node/internal/network/node_accessor/node_link.go, flush and webrtcRecvData). */
module Fragments {
  import opened Bits
  import opened NodeIds
  import opened Ring

  type Byte = x: nat | x < 256

  datatype Head = Head(dst: Id, src: Id, hopCount: nat, mode: nat)

  datatype Packet = Packet(head: Head, id: nat, content: seq<Byte>)

  datatype Fragment = Fragment(head: Option<Head>, id: nat, index: nat, content: seq<Byte>)

  type Container = seq<Fragment>

  function Flatten(cs: seq<Container>): seq<Fragment> {
    if cs == [] then [] else Flatten(cs[..|cs| - 1]) + cs[|cs| - 1]
  }

  function Contents(fs: seq<Fragment>): seq<Byte> {
    if fs == [] then [] else Contents(fs[..|fs| - 1]) + fs[|fs| - 1].content
  }

  lemma ContentsAppend(fs: seq<Fragment>, f: Fragment)
    ensures Contents(fs + [f]) == Contents(fs) + f.content
  {
    assert (fs + [f])[..|fs|] == fs;
  }

  lemma FlattenAppend(cs: seq<Container>, c: Container)
    ensures Flatten(cs + [c]) == Flatten(cs) + c
  {
    assert (cs + [c])[..|cs|] == cs;
  }

  // ---------------------------------------------------------------- what the sender emits

  /** Number of fragments of a packet of `len` bytes after `used` bytes already in the container. */
  function Count(used: nat, len: nat, base: nat): nat
    requires base > 0
  {
    (len + used) / base + if (len + used) % base != 0 then 1 else 0
  }

  lemma CountBounds(used: nat, len: nat, base: nat)
    requires base > 0 && used + len > 0
    ensures var n := Count(used, len, base); n >= 1 && (n - 1) * base < used + len <= n * base
  {
    var q, r := (len + used) / base, (len + used) % base;
    assert len + used == q * base + r;
    assert (q + 1) * base == q * base + base;
    if r == 0 {
      assert (q - 1) * base == q * base - base;
      assert q != 0;
    }
  }

  function PieceSize(left: nat, used: nat, base: nat): nat
    requires used <= base
  {
    if left + used > base then base - used else left
  }

  /** The fragments still to come, with index `i` down to 0, when `sent` bytes have gone. */
  function Pieces(w: Packet, sent: nat, i: nat, used: nat, base: nat): seq<Fragment>
    requires sent <= |w.content| && used <= base
    decreases i
  {
    var size := PieceSize(|w.content| - sent, used, base);
    var piece := w.content[sent..sent + size];
    if i == 0 then [Fragment(Some(w.head), w.id, 0, piece)]
    else [Fragment(None, w.id, i % U32, piece)] + Pieces(w, sent + size, i - 1, 0, base)
  }

  function PacketFragments(w: Packet, used: nat, base: nat): seq<Fragment>
    requires used <= base && base > 0
  {
    if used + |w.content| > base then
      CountBounds(used, |w.content|, base);
      Pieces(w, 0, Count(used, |w.content|, base) - 1, used, base)
    else [Fragment(Some(w.head), w.id, 0, w.content)]
  }

  /** Bytes in the open container after a packet. */
  function UsedAfter(used: nat, len: nat, base: nat): (u: nat)
    requires used <= base && base > 0
    ensures u <= base
  {
    if used + len > base then
      CountBounds(used, len, base);
      assert Count(used, len, base) * base == (Count(used, len, base) - 1) * base + base;
      used + len - (Count(used, len, base) - 1) * base
    else used + len
  }

  /** All fragments of a queue, in order. */
  function Stream(queue: seq<Packet>, used: nat, base: nat): seq<Fragment>
    requires used <= base && base > 0
  {
    if queue == [] then []
    else PacketFragments(queue[0], used, base) + Stream(queue[1..], UsedAfter(used, |queue[0].content|, base), base)
  }

  /** Every packet's fragment count fits the 32-bit index. */
  predicate AllFit(queue: seq<Packet>, used: nat, base: nat)
    requires used <= base && base > 0
  {
    queue != [] ==>
      used + |queue[0].content| <= U32 * base && AllFit(queue[1..], UsedAfter(used, |queue[0].content|, base), base)
  }

  // ---------------------------------------------------------------- the receiver

  datatype Receiver = Receiver(stack: seq<Fragment>, stackID: nat, delivered: seq<Packet>, broken: bool)

  const IDLE := Receiver([], 0, [], false)

  predicate WellFormedRun(run: seq<Fragment>) {
    forall i :: 0 <= i < |run| ==>
      run[i].index == (|run| - i - 1) % U32 && (run[i].index == 0 <==> run[i].head.Some?)
  }

  function Assemble(run: seq<Fragment>): Packet
    requires run != [] && run[|run| - 1].head.Some?
  {
    var last := run[|run| - 1];
    Packet(last.head.value, last.id, Contents(run))
  }

  function RecvFragment(r: Receiver, f: Fragment): Receiver {
    if r.broken then r
    else if r.stack != [] && r.stackID != f.id then r.(broken := true)
    else if f.index != 0 then
      r.(stack := r.stack + [f], stackID := if r.stack == [] then f.id else r.stackID)
    else if WellFormedRun(r.stack + [f]) then
      assert (r.stack + [f])[|r.stack|] == f;
      r.(stack := [], delivered := r.delivered + [Assemble(r.stack + [f])])
    else r.(stack := [], broken := true)
  }

  function RecvAll(r: Receiver, fs: seq<Fragment>): Receiver
    decreases |fs|
  {
    if fs == [] then r else RecvAll(RecvFragment(r, fs[0]), fs[1..])
  }

  lemma {:induction false} RecvConcat(r: Receiver, a: seq<Fragment>, b: seq<Fragment>)
    ensures RecvAll(r, a + b) == RecvAll(RecvAll(r, a), b)
    decreases |a|
  {
    if a == [] {
      assert a + b == b;
    } else {
      assert (a + b)[1..] == a[1..] + b;
      RecvConcat(RecvFragment(r, a[0]), a[1..], b);
    }
  }

  lemma {:induction false} RecvMonotone(r: Receiver, fs: seq<Fragment>)
    ensures r.delivered <= RecvAll(r, fs).delivered
    ensures r.broken ==> RecvAll(r, fs).broken
    decreases |fs|
  {
    if fs != [] {
      RecvMonotone(RecvFragment(r, fs[0]), fs[1..]);
    }
  }

  /** A fragment with index 0 and no head ends the connection, wherever it comes. */
  lemma {:induction false} HeadlessBreaks(r: Receiver, fs: seq<Fragment>, k: nat)
    requires k < |fs| && fs[k].index == 0 && fs[k].head.None?
    ensures RecvAll(r, fs).broken
    decreases |fs|
  {
    var r1 := RecvFragment(r, fs[0]);
    if k == 0 {
      assert (r.stack + [fs[0]])[|r.stack|] == fs[0];
      RecvMonotone(r1, fs[1..]);
    } else {
      HeadlessBreaks(r1, fs[1..], k - 1);
    }
  }

  // ---------------------------------------------------------------- round trip

  /** The stack holds the first fragments of `w`, the next one to come having index `i`. */
  ghost predicate Stacked(stack: seq<Fragment>, w: Packet, i: nat) {
    forall j :: 0 <= j < |stack| ==>
      stack[j].id == w.id && stack[j].head == None && stack[j].index == i + |stack| - j
  }

  /** The fragment with index 0 completes the packet. */
  lemma FinalPiece(w: Packet, r: Receiver, f: Fragment)
    requires !r.broken && |r.stack| < U32 && Stacked(r.stack, w, 0) && (r.stack != [] ==> r.stackID == w.id)
    requires f.head == Some(w.head) && f.id == w.id && f.index == 0 && Contents(r.stack) + f.content == w.content
    ensures RecvAll(r, [f]) == r.(stack := [], delivered := r.delivered + [w])
  {
    var run := r.stack + [f];
    ContentsAppend(r.stack, f);
    assert run[|run| - 1] == f;
    forall i | 0 <= i < |run|
      ensures run[i].index == (|run| - i - 1) % U32 && (run[i].index == 0 <==> run[i].head.Some?)
    {
      if i < |r.stack| { assert run[i] == r.stack[i]; }
    }
    assert WellFormedRun(run) && Assemble(run) == w;
    assert RecvAll(r, [f]) == RecvAll(RecvFragment(r, f), [f][1..]);
  }

  /** `n` bytes need `i` full containers and a last non-empty one. */
  ghost predicate Spans(i: nat, base: nat, n: nat) {
    i * base < n <= (i + 1) * base
  }

  lemma {:induction false} PiecesRoundTrip(w: Packet, sent: nat, i: nat, used: nat, base: nat, r: Receiver)
    requires sent <= |w.content| && used <= base && base > 0
    requires Spans(i, base, |w.content| - sent + used)
    requires !r.broken && i + |r.stack| < U32 && Stacked(r.stack, w, i) && Contents(r.stack) == w.content[..sent]
    requires r.stack != [] ==> r.stackID == w.id
    ensures var r' := RecvAll(r, Pieces(w, sent, i, used, base));
            !r'.broken && r'.stack == [] && r'.delivered == r.delivered + [w]
    decreases i
  {
    hide RecvFragment, RecvAll, Stacked, Contents, Spans, Pieces;
    PiecesUnfold(w, sent, i, used, base);
    var left := |w.content| - sent;
    var size := PieceSize(left, used, base);
    if i == 0 {
      var f := Fragment(Some(w.head), w.id, 0, w.content[sent..sent + size]);
      SpansOne(base, left + used);
      assert w.content[..sent] + w.content[sent..] == w.content;
      FinalPiece(w, r, f);
    } else {
      SplitSize(i, base, left, used);
      assert i % U32 == i;
      var f := Fragment(None, w.id, i, w.content[sent..sent + size]);
      var rest := Pieces(w, sent + size, i - 1, 0, base);
      assert w.content[..sent] + w.content[sent..sent + size] == w.content[..sent + size];
      var r1 := MiddlePiece(w, r, f, i);
      PiecesRoundTrip(w, sent + size, i - 1, 0, base, r1);
      RecvCons(r, f, rest);
    }
  }

  lemma PiecesUnfold(w: Packet, sent: nat, i: nat, used: nat, base: nat)
    requires sent <= |w.content| && used <= base
    ensures var size := PieceSize(|w.content| - sent, used, base);
            var piece := w.content[sent..sent + size];
            Pieces(w, sent, i, used, base) ==
              if i == 0 then [Fragment(Some(w.head), w.id, 0, piece)]
              else [Fragment(None, w.id, i % U32, piece)] + Pieces(w, sent + size, i - 1, 0, base)
  {}

  lemma RecvCons(r: Receiver, f: Fragment, rest: seq<Fragment>)
    ensures RecvAll(r, [f] + rest) == RecvAll(RecvFragment(r, f), rest)
  {
    assert ([f] + rest)[1..] == rest;
  }

  lemma SpansOne(base: nat, n: nat)
    requires Spans(0, base, n)
    ensures n <= base
  {}

  lemma SplitSize(i: nat, base: nat, left: nat, used: nat)
    requires i > 0 && used <= base && Spans(i, base, left + used)
    ensures left + used > base && Spans(i - 1, base, left + used - base)
  {
    MulLe(1, i, base);
  }

  /** A fragment with a higher index is stacked. */
  lemma MiddlePiece(w: Packet, r: Receiver, f: Fragment, i: nat) returns (r': Receiver)
    requires 0 < i && !r.broken && Stacked(r.stack, w, i) && (r.stack != [] ==> r.stackID == w.id)
    requires f.head == None && f.id == w.id && f.index == i
    ensures r' == RecvFragment(r, f) && r' == Receiver(r.stack + [f], w.id, r.delivered, false)
    ensures Stacked(r'.stack, w, i - 1) && Contents(r'.stack) == Contents(r.stack) + f.content
  {
    r' := RecvFragment(r, f);
    ContentsAppend(r.stack, f);
  }

  lemma PacketRoundTrip(w: Packet, used: nat, base: nat, r: Receiver)
    requires used <= base && base > 0 && used + |w.content| <= U32 * base
    requires !r.broken && r.stack == []
    ensures var r' := RecvAll(r, PacketFragments(w, used, base));
            !r'.broken && r'.stack == [] && r'.delivered == r.delivered + [w]
  {
    if used + |w.content| > base {
      CountBounds(used, |w.content|, base);
      var n := Count(used, |w.content|, base);
      if n > U32 { MulLe(U32, n - 1, base); }
      PiecesRoundTrip(w, 0, n - 1, used, base, r);
    } else {
      var f := Fragment(Some(w.head), w.id, 0, w.content);
      FinalPiece(w, r, f);
    }
  }

  lemma MulLe(a: nat, b: nat, c: nat)
    requires a <= b
    ensures a * c <= b * c
  {}

  /** An oversized packet puts a headless fragment with index 0 on the wire. */
  lemma {:induction false} OversizeHasHeadless(w: Packet, sent: nat, i: nat, used: nat, base: nat) returns (k: nat)
    requires sent <= |w.content| && used <= base && i >= U32
    ensures var fs := Pieces(w, sent, i, used, base); k < |fs| && fs[k].index == 0 && fs[k].head.None?
    decreases i
  {
    var size := PieceSize(|w.content| - sent, used, base);
    if i == U32 {
      k := 0;
    } else {
      k := OversizeHasHeadless(w, sent + size, i - 1, 0, base);
      k := k + 1;
    }
  }

  /** Round trip for a whole queue, and exactly when it holds: the receiver rebuilds the queue in
      order with an empty stack and never disconnects if and only if every fragment count fits the
      32-bit index. */
  lemma {:induction false} StreamRoundTrip(queue: seq<Packet>, used: nat, base: nat, r: Receiver)
    requires used <= base && base > 0 && !r.broken && r.stack == []
    ensures var r' := RecvAll(r, Stream(queue, used, base));
            && (AllFit(queue, used, base) ==> !r'.broken && r'.stack == [] && r'.delivered == r.delivered + queue)
            && (!AllFit(queue, used, base) ==> r'.broken)
  {
    hide PacketFragments, RecvAll, UsedAfter;
    if queue == [] {
      NothingReceived(r);
    } else {
      var w := queue[0];
      var fs, used1 := PacketFragments(w, used, base), UsedAfter(used, |w.content|, base);
      var rest := Stream(queue[1..], used1, base);
      RecvConcat(r, fs, rest);
      var r1 := RecvAll(r, fs);
      if used + |w.content| <= U32 * base {
        PacketRoundTrip(w, used, base, r);
        StreamRoundTrip(queue[1..], used1, base, r1);
        assert queue == [w] + queue[1..];
      } else {
        OversizeBreaks(w, used, base, r);
        RecvMonotone(r1, rest);
      }
    }
  }

  lemma NothingReceived(r: Receiver)
    ensures RecvAll(r, []) == r
  {}

  lemma OversizeBreaks(w: Packet, used: nat, base: nat, r: Receiver)
    requires used <= base && base > 0 && used + |w.content| > U32 * base
    ensures RecvAll(r, PacketFragments(w, used, base)).broken
  {
    CountBounds(used, |w.content|, base);
    var n := Count(used, |w.content|, base);
    if n <= U32 { MulLe(n, U32, base); }
    MulLe(1, U32, base);
    var k := OversizeHasHeadless(w, 0, n - 1, used, base);
    HeadlessBreaks(r, PacketFragments(w, used, base), k);
  }

  // ---------------------------------------------------------------- any received stream

  ghost predicate GoodRun(run: seq<Fragment>) {
    && run != []
    && forall i :: 0 <= i < |run| ==>
         run[i].id == run[0].id && run[i].index == |run| - 1 - i && (run[i].head.Some? <==> i == |run| - 1)
  }

  ghost predicate Delivers(runs: seq<seq<Fragment>>, delivered: seq<Packet>) {
    |runs| == |delivered| && forall i :: 0 <= i < |runs| ==> GoodRun(runs[i]) && delivered[i] == Assemble(runs[i])
  }

  /** Whatever arrives, every delivered packet is the concatenation of a contiguous run with one id,
      indices counting down to 0 and a head on the last fragment only; without a disconnect the
      stream is those runs followed by the stack. */
  lemma {:induction false} ReceivedRuns(fs: seq<Fragment>) returns (runs: seq<seq<Fragment>>, tail: seq<Fragment>)
    ensures Explains(fs, runs, tail, RecvAll(IDLE, fs))
    decreases |fs|
  {
    hide RecvFragment, Explains;
    if fs == [] {
      runs, tail := [], [];
      NothingExplained();
    } else {
      var init, f := fs[..|fs| - 1], fs[|fs| - 1];
      assert fs == init + [f];
      RecvConcat(IDLE, init, [f]);
      runs, tail := ReceivedRuns(init);
      var r := RecvAll(IDLE, init);
      assert RecvAll(r, [f]) == RecvFragment(r, f);
      runs, tail := ExplainOne(init, runs, tail, r, f);
    }
  }

  ghost predicate Explains(fs: seq<Fragment>, runs: seq<seq<Fragment>>, tail: seq<Fragment>, r: Receiver) {
    && fs == Flatten(runs) + tail
    && Delivers(runs, r.delivered)
    && (!r.broken ==> tail == r.stack && Pending(r))
  }

  lemma NothingExplained()
    ensures Explains([], [], [], RecvAll(IDLE, []))
  {}

  lemma ExplainOne(fs: seq<Fragment>, runs: seq<seq<Fragment>>, tail: seq<Fragment>, r: Receiver, f: Fragment)
    returns (runs': seq<seq<Fragment>>, tail': seq<Fragment>)
    requires Explains(fs, runs, tail, r)
    ensures Explains(fs + [f], runs', tail', RecvFragment(r, f))
  {
    hide WellFormedRun, GoodRun;
    var run := tail + [f];
    if !r.broken && (r.stack == [] || r.stackID == f.id) && f.index == 0 && WellFormedRun(r.stack + [f]) {
      RunIsGood(r.stack, f, r.stackID);
      FlattenAppend(runs, run);
      runs', tail' := runs + [run], [];
    } else {
      runs', tail' := runs, run;
    }
  }

  /** The stack of an unbroken receiver: same id throughout, no index 0. */
  ghost predicate Pending(r: Receiver) {
    forall j :: 0 <= j < |r.stack| ==> r.stack[j].id == r.stackID && r.stack[j].index != 0
  }

  lemma IndexAt(run: seq<Fragment>, i: nat)
    requires WellFormedRun(run) && i < |run|
    ensures run[i].index == (|run| - i - 1) % U32
  {}

  lemma RunIsGood(stack: seq<Fragment>, f: Fragment, id: nat)
    requires forall j :: 0 <= j < |stack| ==> stack[j].id == id && stack[j].index != 0
    requires stack != [] ==> f.id == id
    requires WellFormedRun(stack + [f])
    ensures GoodRun(stack + [f])
  {
    if |stack| + 1 > U32 {
      IndexAt(stack + [f], |stack| - U32);
      assert false;
    }
  }
}

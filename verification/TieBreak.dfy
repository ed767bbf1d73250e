/** Two peers that connect to each other at the same time: whatever the interleaving, both keep the
    same link (node/internal/network/node_accessor/node_accessor.go, nodeLinkChangeState). */
module TieBreak {
  import opened NodeIds
  import opened Ring
  import opened NodeLink
  import opened Accessor

  /** The two peers and the two links between them; `x` is the one with the smaller label. Each link is
      offered under its own number, so the two offers differ. `ofX` and `ofY` say who offers them, `true`
      being the first peer, and `toX` and `toY` whether the offer names the other peer or is made to
      whoever is next. */
  datatype Setup = Setup(
    ida: Id,
    idb: Id,
    x: LinkId,
    y: LinkId,
    lx: nat,
    ly: nat,
    ofX: bool,
    ofY: bool,
    toX: bool,
    toY: bool)

  ghost predicate Proper(u: Setup) {
    u.x != u.y && u.lx < u.ly
  }

  /** Both peers' link tables, `true` naming the first peer, and the links whose offer has been answered. */
  datatype Pair = Pair(a: Acc, b: Acc, answered: set<LinkId>)

  function Of(s: Pair, p: bool): Acc {
    if p then s.a else s.b
  }

  function With(s: Pair, p: bool, acc: Acc): Pair {
    if p then s.(a := acc) else s.(b := acc)
  }

  function IdOf(u: Setup, p: bool): Id {
    if p then u.ida else u.idb
  }

  function LabelOf(u: Setup, l: LinkId): nat {
    if l == u.x then u.lx else u.ly
  }

  function Offerer(u: Setup, l: LinkId): bool {
    if l == u.x then u.ofX else u.ofY
  }

  /** The peer an offer names. */
  function Addressee(u: Setup, l: LinkId): Option<Id> {
    if (if l == u.x then u.toX else u.toY) then Some(IdOf(u, !Offerer(u, l))) else None
  }

  /** A peer offers a link; the other takes the offer; the first takes the answer, which accepts; an end
      of an answered link comes up unless the other is closed; it goes down when the other end has been
      closed; a spawned handler runs. */
  datatype Move =
    | SendOffer(p: bool, l: LinkId)
    | TakeOffer(p: bool, l: LinkId)
    | TakeAnswer(p: bool, l: LinkId)
    | Up(p: bool, l: LinkId)
    | Down(p: bool, l: LinkId)
    | Handler(p: bool, i: nat)

  ghost predicate CanMove(u: Setup, s: Pair, m: Move) {
    var me, other := Of(s, m.p), Of(s, !m.p);
    match m
    case SendOffer(p, l) => l in {u.x, u.y} && p == Offerer(u, l) && l !in me.state
    case TakeOffer(p, l) => l in {u.x, u.y} && p != Offerer(u, l) && l !in me.state && l in other.state
    case TakeAnswer(p, l) => l in {u.x, u.y} && p == Offerer(u, l) && l in other.state && l !in s.answered
    case Up(_, l) =>
      l in s.answered && l in me.state && l in other.state && me.state[l] == Connecting && other.state[l] != Disabled
    case Down(_, l) => l in me.state && l in other.state && me.state[l] != Disabled && other.state[l] == Disabled
    case Handler(_, i) => i < |me.events|
  }

  /** The move does not panic. */
  ghost predicate SafeMove(u: Setup, s: Pair, m: Move)
    requires CanMove(u, s, m)
  {
    var me := Of(s, m.p);
    m.Handler? && me.events[m.i].state == Online ==> HandlerSafe(Take(me, m.i), me.events[m.i].link)
  }

  ghost function Moved(u: Setup, s: Pair, m: Move): Pair
    requires CanMove(u, s, m) && SafeMove(u, s, m)
  {
    var me := Of(s, m.p);
    var s' := With(s, m.p, match m
      case SendOffer(p, l) => AddOffer(me, l, l, LabelOf(u, l), Addressee(u, l))
      case TakeOffer(p, l) => SignalingOffer(me, IdOf(u, !p), l, l, LabelOf(u, l))
      case TakeAnswer(p, l) => SignalingAnswer(me, IdOf(u, !p), l, false)
      case Up(_, l) => TransportChange(me, l, Online)
      case Down(_, l) => TransportChange(me, l, Disabled)
      case Handler(p, i) =>
        if me.events[i].state == Online then HandleOnline(Take(me, i), me.events[i].link)
        else DisconnectLink(Take(me, i), me.events[i].link));
    if m.TakeAnswer? then s'.(answered := s'.answered + {m.l}) else s'
  }

  /** What holds at each end: the link with the smaller label is never closed, and a link is where its
      state says it is or the handler that will put it there is still to run. */
  ghost predicate Good(u: Setup, a: Acc, peer: Id) {
    && Paired(a)
    && a.state.Keys <= {u.x, u.y} && a.linkOf.Keys <= {peer}
    && (forall l :: l in a.labels ==> a.labels[l] == LabelOf(u, l))
    && (forall o :: o in a.offers ==> a.offers[o].link == o)
    && (forall e :: e in a.events ==> GoodEvent(u, a, e))
    && (forall l :: l in a.state ==> Placed(u, a, l))
  }

  ghost predicate GoodEvent(u: Setup, a: Acc, e: Event) {
    && e.link in a.state && e.state != Connecting && a.state[e.link] != Connecting
    && (e.state == Disabled ==> a.state[e.link] == Disabled)
  }

  ghost predicate Placed(u: Setup, a: Acc, l: LinkId) {
    && l in a.state
    && (l == u.x ==> a.state[l] != Disabled)
    && (l in a.nodeOf ==> a.state[l] != Connecting)
    && (a.state[l] == Connecting ==> l in a.offerOf)
    && (a.state[l] == Online ==> l in a.nodeOf || (l in a.offerOf && Event(l, Online) in a.events))
    && (a.state[l] == Disabled && (l in a.nodeOf || l in a.offerOf) ==> Event(l, Disabled) in a.events)
  }

  /** One end as seen from the pair: its peer, the links it offers, and those whose offer is answered. */
  datatype End = End(peer: Id, own: set<LinkId>, answered: set<LinkId>)

  function EndOf(u: Setup, s: Pair, p: bool): End {
    End(IdOf(u, !p), (set l | l in {u.x, u.y} && Offerer(u, l) == p), s.answered)
  }

  /** Only the peer of an own offer that is not answered may be unknown, and only links whose offer is
      answered have left the connecting state. */
  ghost predicate Acquainted(a: Acc, w: End) {
    && (forall o :: o in a.offers ==>
          a.offers[o].node == Some(w.peer) || (a.offers[o].node == None && o in w.own && o !in w.answered))
    && forall l :: l in a.state && a.state[l] != Connecting ==> l in w.answered
  }

  lemma GoodHandler(u: Setup, a: Acc, w: End, i: nat)
    requires Proper(u) && Good(u, a, w.peer) && Acquainted(a, w) && i < |a.events|
    ensures HandlerSafe(Take(a, i), a.events[i].link)
    ensures a.events[i].link in a.offerOf ==> OffersTo(Take(a, i), a.events[i].link, w.peer)
  {
    var e := a.events[i];
    assert e in a.events;
    assert GoodEvent(u, a, e);
    HandlerSafeWhenReady(Take(a, i), e.link);
  }

  lemma TakeMembers(a: Acc, i: nat)
    requires i < |a.events|
    ensures forall e :: e in Take(a, i).events ==> e in a.events
    ensures forall e :: e in a.events && e != a.events[i] ==> e in Take(a, i).events
  {
    forall e | e in a.events && e != a.events[i] ensures e in Take(a, i).events {
      var k :| 0 <= k < |a.events| && a.events[k] == e;
      if k < i { assert Take(a, i).events[k] == e; } else { assert Take(a, i).events[k - 1] == e; }
    }
  }

  lemma UnusedOffer(u: Setup, a: Acc, peer: Id, l: LinkId)
    requires Good(u, a, peer) && l !in a.state
    ensures l !in a.offers && l !in a.nodeOf && l !in a.offerOf
  {
    assert forall o :: o in a.offers ==> a.offers[o].link in a.offerOf;
  }

  lemma CreateKeeps(u: Setup, a: Acc, peer: Id, l: LinkId, node: Option<Id>)
    requires Good(u, a, peer) && l in {u.x, u.y} && l !in a.state
    ensures Good(u, AddOffer(a, l, l, LabelOf(u, l), node), peer)
  {
    hide Paired, Placed, GoodEvent;
    var a' := AddOffer(a, l, l, LabelOf(u, l), node);
    UnusedOffer(u, a, peer, l);
    AddOfferKeeps(a, l, l, LabelOf(u, l), node);
    forall k | k in a'.state ensures Placed(u, a', k) { CreatePlaced(u, a, l, node, k); }
    forall e | e in a'.events ensures GoodEvent(u, a', e) { CreateEvent(u, a, l, node, e); }
  }

  /** An accepted answer changes no state and no map but the peer of the offer. */
  lemma AnswerKeeps(u: Setup, a: Acc, peer: Id, src: Id, l: LinkId)
    requires Good(u, a, peer)
    ensures Good(u, SignalingAnswer(a, src, l, false), peer)
  {
    hide Paired, SignalingAnswer;
    var a' := SignalingAnswer(a, src, l, false);
    SignalingAnswerKeeps(a, src, l, false);
    AnswerIs(a, src, l, false);
    forall k | k in a'.state ensures Placed(u, a', k) { assert Placed(u, a, k); }
    forall e | e in a'.events ensures GoodEvent(u, a', e) { assert GoodEvent(u, a, e); }
  }

  lemma CreatePlaced(u: Setup, a: Acc, l: LinkId, peer: Option<Id>, k: LinkId)
    requires l !in a.state && l !in a.nodeOf && (k != l ==> Placed(u, a, k))
    ensures Placed(u, AddOffer(a, l, l, LabelOf(u, l), peer), k)
  {}

  lemma CreateEvent(u: Setup, a: Acc, l: LinkId, peer: Option<Id>, e: Event)
    requires l !in a.state && GoodEvent(u, a, e)
    ensures GoodEvent(u, AddOffer(a, l, l, LabelOf(u, l), peer), e)
  {
  }

  /** The transport brings an end up, or closes one of the link with the larger label. */
  lemma TransportChangeKeeps(u: Setup, a: Acc, peer: Id, l: LinkId, s: LinkState)
    requires Good(u, a, peer) && l in a.state
    requires (s == Online && a.state[l] == Connecting) || (s == Disabled && a.state[l] != Disabled && l != u.x)
    ensures Good(u, TransportChange(a, l, s), peer)
  {
    hide Paired, Placed, GoodEvent;
    var a' := TransportChange(a, l, s);
    TransportKeeps(a, l, s);
    forall k | k in a'.state ensures Placed(u, a', k) { TransportPlaced(u, a, l, s, k); }
    forall e | e in a'.events ensures GoodEvent(u, a', e) { TransportEvent(u, a, l, s, e); }
  }

  lemma TransportPlaced(u: Setup, a: Acc, l: LinkId, s: LinkState, k: LinkId)
    requires l in a.state && Placed(u, a, k) && (k == l ==> Placed(u, a, l))
    requires (s == Online && a.state[l] == Connecting) || (s == Disabled && a.state[l] != Disabled && l != u.x)
    ensures Placed(u, TransportChange(a, l, s), k)
  {
    var a' := TransportChange(a, l, s);
    assert a'.events[|a.events|] == Event(l, s);
    assert forall e :: e in a.events ==> e in a'.events;
  }

  lemma TransportEvent(u: Setup, a: Acc, l: LinkId, s: LinkState, e: Event)
    requires l in a.state && (e in a.events ==> GoodEvent(u, a, e)) && e in TransportChange(a, l, s).events
    requires (s == Online && a.state[l] == Connecting) || (s == Disabled && a.state[l] != Disabled)
    ensures GoodEvent(u, TransportChange(a, l, s), e)
  {}

  /** The state while the handler of event `i` runs: that event is gone, so the link it is about is
      the only one that may be out of place. */
  ghost predicate GoodBut(u: Setup, a: Acc, peer: Id, l: LinkId) {
    && Paired(a)
    && a.state.Keys <= {u.x, u.y} && a.linkOf.Keys <= {peer} && l in a.state
    && (forall k :: k in a.labels ==> a.labels[k] == LabelOf(u, k))
    && (forall o :: o in a.offers ==> a.offers[o].link == o)
    && (forall e :: e in a.events ==> GoodEvent(u, a, e))
    && (forall k :: k in a.state && k != l ==> Placed(u, a, k))
  }

  lemma TakeIsGoodBut(u: Setup, a: Acc, peer: Id, i: nat)
    requires Good(u, a, peer) && i < |a.events|
    ensures GoodBut(u, Take(a, i), peer, a.events[i].link)
  {
    TakeMembers(a, i);
    var l, a1 := a.events[i].link, Take(a, i);
    assert a.events[i] in a.events;
    assert GoodEvent(u, a, a.events[i]);
    assert Paired(a1);
    forall k | k in a1.state && k != l ensures Placed(u, a1, k) { assert Placed(u, a, k); }
    forall e | e in a1.events ensures GoodEvent(u, a1, e) { assert GoodEvent(u, a, e); }
  }

  /** Disconnecting the link with the larger label puts it in place. */
  lemma DisconnectGood(u: Setup, a: Acc, peer: Id, l: LinkId)
    requires GoodBut(u, a, peer, l) && l != u.x
    ensures Good(u, DisconnectLink(a, l), peer)
    ensures DisconnectLink(a, l).state[l] == Disabled
  {
    hide Paired, Placed, GoodEvent, DisconnectLink;
    var d := DisconnectLink(a, l);
    DisconnectKeeps(a, l);
    DisconnectRemovesOnly(a, l);
    OthersStay(a, l);
    forall k | k in d.state ensures Placed(u, d, k) { DisconnectPlaced(u, a, l, k); }
    forall e | e in d.events ensures GoodEvent(u, d, e) { DisconnectEvent(u, a, l, e); }
  }

  lemma DisconnectPlaced(u: Setup, a: Acc, l: LinkId, k: LinkId)
    requires Paired(a) && l in a.state && l != u.x && k in a.state && (k != l ==> Placed(u, a, k))
    ensures Placed(u, DisconnectLink(a, l), k)
  {
    hide Paired, DisconnectLink;
    DisconnectKeeps(a, l);
    OthersStay(a, l);
  }

  lemma DisconnectEvent(u: Setup, a: Acc, l: LinkId, e: Event)
    requires Paired(a) && l in a.state && (e in a.events ==> GoodEvent(u, a, e)) && e in DisconnectLink(a, l).events
    ensures GoodEvent(u, DisconnectLink(a, l), e)
  {
    hide Paired, DisconnectLink;
    DisconnectKeeps(a, l);
    OthersStay(a, l);
  }

  lemma OthersStay(a: Acc, l: LinkId)
    requires Paired(a) && l in a.state
    ensures var d := DisconnectLink(a, l);
            && (forall k :: k != l ==> (k in d.nodeOf <==> k in a.nodeOf) && (k in d.offerOf <==> k in a.offerOf))
            && (forall k :: k in a.state && k != l ==> k in d.state && d.state[k] == a.state[k])
            && l in d.state && d.state[l] == Disabled && a.events <= d.events
            && forall e :: e in d.events ==> e in a.events || e == Event(l, Disabled)
  {
    hide Paired, Disable, ForgetNode, ForgetOffer;
    DisableKeeps(a, l);
    ForgetNodeKeeps(Disable(a, l), l);
    ForgetOfferKeeps(ForgetNode(Disable(a, l), l), l);
    DisableEffect(a, l);
  }

  lemma DisableEffect(a: Acc, l: LinkId)
    requires l in a.state
    ensures var d := Disable(a, l);
            && (forall k :: k in a.state && k != l ==> k in d.state && d.state[k] == a.state[k])
            && l in d.state && d.state[l] == Disabled && a.events <= d.events
            && forall e :: e in d.events ==> e in a.events || e == Event(l, Disabled)
  {}

  /** As `Placed`, for a link whose online handler has just been taken from the queue. */
  ghost predicate AlmostPlaced(u: Setup, a: Acc, l: LinkId) {
    && l in a.state && a.state[l] != Connecting
    && (l == u.x ==> a.state[l] != Disabled)
    && (a.state[l] == Online ==> l in a.nodeOf || l in a.offerOf)
    && (a.state[l] == Disabled && (l in a.nodeOf || l in a.offerOf) ==> Event(l, Disabled) in a.events)
  }

  lemma DisconnectGoodBut(u: Setup, a: Acc, peer: Id, k: LinkId, l: LinkId)
    requires GoodBut(u, a, peer, l) && k != l && k != u.x && k in a.state
    ensures GoodBut(u, DisconnectLink(a, k), peer, l)
  {
    hide Paired, Placed, GoodEvent, DisconnectLink;
    var d := DisconnectLink(a, k);
    DisconnectKeeps(a, k);
    DisconnectRemovesOnly(a, k);
    OthersStay(a, k);
    forall j | j in d.state && j != l ensures Placed(u, d, j) { DisconnectPlaced(u, a, k, j); }
    forall e | e in d.events ensures GoodEvent(u, d, e) { DisconnectEvent(u, a, k, e); }
  }

  lemma PromoteGood(u: Setup, a: Acc, peer: Id, l: LinkId)
    requires GoodBut(u, a, peer, l) && peer !in a.linkOf && l !in a.nodeOf && l !in a.offerOf
    requires a.state[l] != Connecting && (l == u.x ==> a.state[l] != Disabled)
    requires a.state[l] == Disabled ==> Event(l, Disabled) in a.events
    ensures Good(u, Promote(a, l, peer), peer)
  {
    hide Paired;
    var a' := Promote(a, l, peer);
    PromoteKeeps(a, l, peer);
    forall k | k in a'.state ensures Placed(u, a', k) { if k != l { assert Placed(u, a, k); } }
    forall e | e in a'.events ensures GoodEvent(u, a', e) { assert GoodEvent(u, a, e); }
  }

  lemma ForgottenGoodBut(u: Setup, a: Acc, peer: Id, l: LinkId)
    requires GoodBut(u, a, peer, l) && l in a.offerOf
    ensures GoodBut(u, ForgetOffer(a, l), peer, l)
    ensures l !in a.nodeOf
  {
    var a1 := ForgetOffer(a, l);
    assert Paired(a1);
    forall k | k in a1.state && k != l ensures Placed(u, a1, k) { assert Placed(u, a, k); }
    forall e | e in a1.events ensures GoodEvent(u, a1, e) { assert GoodEvent(u, a, e); }
  }

  lemma OnlineKeeps(u: Setup, a: Acc, peer: Id, l: LinkId)
    requires Proper(u) && GoodBut(u, a, peer, l) && AlmostPlaced(u, a, l) && HandlerSafe(a, l)
    requires l in a.offerOf ==> OffersTo(a, l, peer)
    ensures Good(u, HandleOnline(a, l), peer)
  {
    hide Paired;
    if l !in a.offerOf {
      assert Placed(u, a, l);
    } else {
      ForgottenGoodBut(u, a, peer, l);
      var a1 := ForgetOffer(a, l);
      if peer in a1.linkOf {
        var e := a1.linkOf[peer];
        LinkFacts(a1, peer, l);
        assert Placed(u, a1, e);
        if l == u.x {
          DisconnectGoodBut(u, a1, peer, e, l);
          OthersStay(a1, e);
          NodeGone(a1, peer);
          DisconnectKeeps(a1, e);
          PromoteGood(u, DisconnectLink(a1, e), peer, l);
        } else {
          DisconnectGood(u, a1, peer, l);
        }
      } else {
        PromoteGood(u, a1, peer, l);
      }
    }
  }

  lemma LinkFacts(a: Acc, peer: Id, l: LinkId)
    requires Paired(a) && peer in a.linkOf && l !in a.nodeOf
    ensures a.linkOf[peer] != l && a.linkOf[peer] in a.nodeOf && a.linkOf[peer] in a.state && a.linkOf[peer] in a.labels
    ensures l in a.state ==> l in a.labels
  {}

  lemma NodeGone(a: Acc, peer: Id)
    requires Paired(a) && peer in a.linkOf
    ensures peer !in DisconnectLink(a, a.linkOf[peer]).linkOf
  {}

  lemma HandlerKeeps(u: Setup, a: Acc, peer: Id, i: nat)
    requires Proper(u) && Good(u, a, peer) && i < |a.events|
    requires HandlerSafe(Take(a, i), a.events[i].link)
    requires a.events[i].link in a.offerOf ==> OffersTo(Take(a, i), a.events[i].link, peer)
    ensures var l, a1 := a.events[i].link, Take(a, i);
            Good(u, if a.events[i].state == Online then HandleOnline(a1, l) else DisconnectLink(a1, l), peer)
  {
    hide HandleOnline, DisconnectLink, Paired;
    var e, a1 := a.events[i], Take(a, i);
    TakeIsGoodBut(u, a, peer, i);
    TakeMembers(a, i);
    assert e in a.events;
    assert GoodEvent(u, a, e);
    assert Placed(u, a, e.link);
    if e.state == Online {
      assert AlmostPlaced(u, a1, e.link);
      OnlineKeeps(u, a1, peer, e.link);
    } else {
      DisconnectGood(u, a1, peer, e.link);
    }
  }

  // ---------------------------------------------------------------- runs

  ghost predicate GoodEnd(u: Setup, s: Pair, p: bool) {
    Good(u, Of(s, p), IdOf(u, !p)) && Acquainted(Of(s, p), EndOf(u, s, p))
  }

  /** An offer was taken only after it was made, and answered only after it was taken. */
  ghost predicate Ordered(u: Setup, s: Pair) {
    && (forall l :: l in {u.x, u.y} && l in Of(s, !Offerer(u, l)).state ==> l in Of(s, Offerer(u, l)).state)
    && forall l :: l in s.answered ==> l in {u.x, u.y} && l in Of(s, !Offerer(u, l)).state
  }

  ghost predicate GoodPair(u: Setup, s: Pair) {
    GoodEnd(u, s, true) && GoodEnd(u, s, false) && Ordered(u, s)
  }

  lemma MoveKeeps(u: Setup, s: Pair, m: Move)
    requires Proper(u) && GoodPair(u, s) && CanMove(u, s, m)
    ensures SafeMove(u, s, m) && GoodPair(u, Moved(u, s, m))
  {
    hide Good, HandlerSafe, Acquainted, Ordered, Moved;
    assert GoodEnd(u, s, m.p) && GoodEnd(u, s, !m.p);
    MoveGood(u, s, m);
    MoveAcquainted(u, s, m);
    MoveOrdered(u, s, m);
    var s' := Moved(u, s, m);
    OtherEnd(u, s, m);
    assert GoodEnd(u, s', m.p) && GoodEnd(u, s', !m.p);
  }

  lemma MoveGood(u: Setup, s: Pair, m: Move)
    requires Proper(u) && GoodEnd(u, s, m.p) && GoodEnd(u, s, !m.p) && CanMove(u, s, m)
    ensures SafeMove(u, s, m) && Good(u, Of(Moved(u, s, m), m.p), IdOf(u, !m.p))
  {
    hide Good, HandlerSafe, Acquainted, AddOffer, SignalingAnswer, TransportChange, HandleOnline, DisconnectLink;
    var me, other, peer := Of(s, m.p), Of(s, !m.p), IdOf(u, !m.p);
    match m
    case SendOffer(_, l) => CreateKeeps(u, me, peer, l, Addressee(u, l));
    case TakeOffer(_, l) =>
      UnusedOffer(u, me, peer, l);
      CreateKeeps(u, me, peer, l, Some(peer));
    case TakeAnswer(_, l) => AnswerKeeps(u, me, peer, peer, l);
    case Up(_, l) => TransportChangeKeeps(u, me, peer, l, Online);
    case Down(_, l) =>
      NeverClosed(u, other, IdOf(u, m.p), l);
      TransportChangeKeeps(u, me, peer, l, Disabled);
    case Handler(_, i) =>
      GoodHandler(u, me, EndOf(u, s, m.p), i);
      HandlerKeeps(u, me, peer, i);
  }

  /** What happened at the other end: nothing, but that the answered links may be more. */
  lemma OtherEnd(u: Setup, s: Pair, m: Move)
    requires CanMove(u, s, m) && SafeMove(u, s, m) && GoodEnd(u, s, !m.p)
    ensures GoodEnd(u, Moved(u, s, m), !m.p)
  {
    hide Good, HandlerSafe, AddOffer, SignalingOffer, SignalingAnswer, TransportChange, HandleOnline, DisconnectLink;
    assert Of(Moved(u, s, m), !m.p) == Of(s, !m.p);
  }

  lemma MoveAcquainted(u: Setup, s: Pair, m: Move)
    requires Proper(u) && GoodPair(u, s) && CanMove(u, s, m) && SafeMove(u, s, m)
    ensures var s' := Moved(u, s, m); Acquainted(Of(s', m.p), EndOf(u, s', m.p))
  {
    hide Good, HandlerSafe, AddOffer, SignalingAnswer, TransportChange, HandleOnline, DisconnectLink, Acquainted;
    var me, w := Of(s, m.p), EndOf(u, s, m.p);
    assert GoodEnd(u, s, m.p);
    match m
    case SendOffer(_, l) =>
      assert l !in w.answered by { assert GoodEnd(u, s, !m.p); }
      AddedAcquainted(me, w, l, LabelOf(u, l), Addressee(u, l));
    case TakeOffer(_, l) =>
      UnusedOffer(u, me, w.peer, l);
      AddedAcquainted(me, w, l, LabelOf(u, l), Some(w.peer));
    case TakeAnswer(_, l) => AnsweredAcquainted(me, w, l);
    case Up(_, l) => ChangedAcquainted(me, w, l, Online);
    case Down(_, l) =>
      assert l in w.answered by { DisabledIsAnswered(u, s, m.p, l); }
      ChangedAcquainted(me, w, l, Disabled);
    case Handler(_, i) =>
      GoodHandler(u, me, w, i);
      HandledAcquainted(u, me, w, i);
  }

  lemma DisabledIsAnswered(u: Setup, s: Pair, p: bool, l: LinkId)
    requires GoodPair(u, s) && l in Of(s, !p).state && Of(s, !p).state[l] == Disabled
    ensures l in s.answered
  {
    hide Good;
    assert GoodEnd(u, s, !p);
  }

  lemma AddedAcquainted(a: Acc, w: End, l: LinkId, lab: nat, node: Option<Id>)
    requires Acquainted(a, w) && (node == Some(w.peer) || (node == None && l in w.own && l !in w.answered))
    ensures Acquainted(AddOffer(a, l, l, lab, node), w)
  {}

  lemma AnsweredAcquainted(a: Acc, w: End, l: LinkId)
    requires Acquainted(a, w)
    ensures Acquainted(SignalingAnswer(a, w.peer, l, false), w.(answered := w.answered + {l}))
  {}

  lemma ChangedAcquainted(a: Acc, w: End, l: LinkId, st: LinkState)
    requires Acquainted(a, w) && l in a.state && l in w.answered
    ensures Acquainted(TransportChange(a, l, st), w)
  {}

  lemma HandledAcquainted(u: Setup, a: Acc, w: End, i: nat)
    requires Proper(u) && Good(u, a, w.peer) && Acquainted(a, w) && i < |a.events|
    requires HandlerSafe(Take(a, i), a.events[i].link)
    ensures var l, a1 := a.events[i].link, Take(a, i);
            Acquainted(if a.events[i].state == Online then HandleOnline(a1, l) else DisconnectLink(a1, l), w)
  {
    hide Paired, HandlerSafe, HandleOnline, DisconnectLink, Disconnected, Placed, Shrinks;
    var l, a1 := a.events[i].link, Take(a, i);
    assert a.events[i] in a.events;
    assert GoodEvent(u, a, a.events[i]);
    GoodHandler(u, a, w, i);
    TakeShrinks(a, i);
    assert Acquainted(a1, w);
    if a.events[i].state == Online {
      OnlineShrinks(a1, l);
      OnlineStates(u, a, w, i);
      ShrunkAcquainted(a1, w, HandleOnline(a1, l));
    } else {
      DisconnectShrinks(a1, l);
      DisconnectStates(a1, w, l);
      ShrunkAcquainted(a1, w, DisconnectLink(a1, l));
    }
  }

  lemma ShrunkAcquainted(a: Acc, w: End, d: Acc)
    requires Acquainted(a, w) && Shrinks(a, d)
    requires forall k :: k in d.state && d.state[k] != Connecting ==> k in w.answered
    ensures Acquainted(d, w)
  {}

  lemma DisconnectStates(a: Acc, w: End, l: LinkId)
    requires Paired(a) && Acquainted(a, w) && l in w.answered
    ensures var d := DisconnectLink(a, l); forall k :: k in d.state && d.state[k] != Connecting ==> k in w.answered
  {
    hide Paired, DisconnectLink;
    DisconnectIs(a, l);
  }

  /** The online handler changes the states only of links that are answered. */
  lemma OnlineStates(u: Setup, a: Acc, w: End, i: nat)
    requires Proper(u) && Good(u, a, w.peer) && Acquainted(a, w) && i < |a.events|
    requires HandlerSafe(Take(a, i), a.events[i].link)
    ensures var d := HandleOnline(Take(a, i), a.events[i].link);
            forall k :: k in d.state && d.state[k] != Connecting ==> k in w.answered
  {
    hide Paired, HandlerSafe, HandleOnline, Placed, Winner;
    var l, a1 := a.events[i].link, Take(a, i);
    GoodHandler(u, a, w, i);
    TakeShrinks(a, i);
    assert a.events[i] in a.events;
    assert GoodEvent(u, a, a.events[i]);
    if l in a.offerOf {
      OnlineElects(a1, l, w.peer);
      if w.peer in a.linkOf { ConnectedIsAnswered(u, a, w); }
    } else {
      NothingToHandle(a1, l);
    }
  }

  lemma ConnectedIsAnswered(u: Setup, a: Acc, w: End)
    requires Good(u, a, w.peer) && Acquainted(a, w) && w.peer in a.linkOf
    ensures a.linkOf[w.peer] in w.answered
  {
    assert a.linkOf[w.peer] in a.nodeOf && a.linkOf[w.peer] in a.state;
    assert Placed(u, a, a.linkOf[w.peer]);
  }

  lemma NothingToHandle(a: Acc, l: LinkId)
    requires HandlerSafe(a, l) && l !in a.offerOf
    ensures HandleOnline(a, l) == a
  {}

  lemma MoveOrdered(u: Setup, s: Pair, m: Move)
    requires Proper(u) && GoodPair(u, s) && CanMove(u, s, m) && SafeMove(u, s, m)
    ensures Ordered(u, Moved(u, s, m))
  {
    hide Good, HandlerSafe, Acquainted, Moved;
    MoveStates(u, s, m);
  }

  /** Links are added by the offer moves only, and none ever goes. */
  lemma MoveStates(u: Setup, s: Pair, m: Move)
    requires Proper(u) && GoodPair(u, s) && CanMove(u, s, m) && SafeMove(u, s, m)
    ensures var s' := Moved(u, s, m);
            && Of(s', !m.p).state.Keys == Of(s, !m.p).state.Keys
            && Of(s', m.p).state.Keys == Of(s, m.p).state.Keys + (if m.SendOffer? || m.TakeOffer? then {m.l} else {})
            && s'.answered == s.answered + (if m.TakeAnswer? then {m.l} else {})
  {
    hide Good, HandlerSafe, Acquainted, SignalingAnswer, HandleOnline, DisconnectLink, Shrinks, Ordered;
    var me := Of(s, m.p);
    assert GoodEnd(u, s, m.p);
    match m
    case SendOffer(_, _) =>
    case TakeOffer(_, l) => UnusedOffer(u, me, IdOf(u, !m.p), l);
    case TakeAnswer(_, l) => AnswerStates(me, IdOf(u, !m.p), l);
    case Up(_, _) =>
    case Down(_, _) =>
    case Handler(_, i) =>
      DisconnectShrinks(Take(me, i), me.events[i].link);
      ShrunkStates(Take(me, i), DisconnectLink(Take(me, i), me.events[i].link));
      if me.events[i].state == Online {
        OnlineShrinks(Take(me, i), me.events[i].link);
        ShrunkStates(Take(me, i), HandleOnline(Take(me, i), me.events[i].link));
      }
  }

  lemma ShrunkStates(a: Acc, d: Acc)
    requires Shrinks(a, d)
    ensures d.state.Keys == a.state.Keys
  {}

  lemma AnswerStates(a: Acc, src: Id, l: LinkId)
    ensures SignalingAnswer(a, src, l, false).state == a.state
  {}

  lemma NeverClosed(u: Setup, a: Acc, peer: Id, l: LinkId)
    requires Good(u, a, peer) && l in a.state && a.state[l] == Disabled
    ensures l != u.x
  {
    assert Placed(u, a, l);
  }

  /** A move that would panic may end in any state. */
  ghost predicate Moves(u: Setup, s: Pair, m: Move, s': Pair) {
    CanMove(u, s, m) && (SafeMove(u, s, m) ==> s' == Moved(u, s, m))
  }

  /** Any interleaving of the moves of both peers. */
  ghost predicate Run(u: Setup, tr: seq<Pair>, moves: seq<Move>) {
    && |tr| == |moves| + 1 && tr[0] == Pair(EMPTY, EMPTY, {})
    && forall k :: 0 <= k < |moves| ==> Moves(u, tr[k], moves[k], tr[k + 1])
  }

  lemma {:induction false} RunKeeps(u: Setup, tr: seq<Pair>, moves: seq<Move>, k: nat)
    requires Proper(u) && Run(u, tr, moves) && k < |tr|
    ensures GoodPair(u, tr[k])
    ensures k < |moves| ==> CanMove(u, tr[k], moves[k]) && SafeMove(u, tr[k], moves[k])
  {
    hide Good, CanMove, SafeMove, Moved;
    if k == 0 {
      EmptyGood(u, u.idb);
      EmptyGood(u, u.ida);
      assert GoodEnd(u, tr[0], true) && GoodEnd(u, tr[0], false);
    } else {
      RunKeeps(u, tr, moves, k - 1);
      assert Moves(u, tr[k - 1], moves[k - 1], tr[k - 1 + 1]);
      MoveKeeps(u, tr[k - 1], moves[k - 1]);
    }
    if k < |moves| {
      assert Moves(u, tr[k], moves[k], tr[k + 1]);
      MoveKeeps(u, tr[k], moves[k]);
    }
  }

  lemma EmptyGood(u: Setup, peer: Id)
    ensures Good(u, EMPTY, peer)
  {
    EmptyReady();
  }

  /** Nothing is left to happen. */
  ghost predicate Quiescent(u: Setup, s: Pair) {
    forall m :: !CanMove(u, s, m)
  }

  /** The peer is connected over the link with the smaller label and the other one is gone. */
  ghost predicate Settled(u: Setup, a: Acc, peer: Id) {
    && a.linkOf == map[peer := u.x] && a.nodeOf == map[u.x := peer]
    && a.offers == map[] && a.offerOf == map[] && a.events == []
    && u.x in a.state && a.state[u.x] == Online && u.y in a.state && a.state[u.y] == Disabled
  }

  /** Every run that has come to rest has left both peers with the same link: the one with the smaller
      label. */
  lemma BothKeepSmallerLabel(u: Setup, tr: seq<Pair>, moves: seq<Move>)
    requires Proper(u) && Run(u, tr, moves) && Quiescent(u, tr[|tr| - 1])
    ensures Settled(u, tr[|tr| - 1].a, u.idb) && Settled(u, tr[|tr| - 1].b, u.ida)
  {
    hide Good, Settled, CanMove;
    var s := tr[|tr| - 1];
    RunKeeps(u, tr, moves, |tr| - 1);
    QuietEnd(u, s, true);
    QuietEnd(u, s, false);
    RestSettles(u, s, true);
    RestSettles(u, s, false);
  }

  /** At rest all ends exist, no handler is waiting, and no end can come up or go down. */
  ghost predicate AtRest(u: Setup, s: Pair, p: bool) {
    var me, other := Of(s, p), Of(s, !p);
    && u.x in me.state && u.y in me.state && me.events == []
    && forall l :: l in me.state && l in other.state ==>
         && (me.state[l] == Connecting ==> other.state[l] == Disabled)
         && (other.state[l] == Disabled ==> me.state[l] == Disabled)
  }

  lemma QuietEnd(u: Setup, s: Pair, p: bool)
    requires GoodPair(u, s) && Quiescent(u, s)
    ensures AtRest(u, s, p)
  {
    hide Good, Acquainted;
    var me, other := Of(s, p), Of(s, !p);
    BothEnds(u, s, u.x);
    BothEnds(u, s, u.y);
    assert !CanMove(u, s, Handler(p, 0));
    assert me.state.Keys <= {u.x, u.y} by { assert GoodEnd(u, s, p); EndKeys(u, me, IdOf(u, !p)); }
    forall l | l in me.state && l in other.state
      ensures me.state[l] == Connecting ==> other.state[l] == Disabled
      ensures other.state[l] == Disabled ==> me.state[l] == Disabled
    {
      assert !CanMove(u, s, Up(p, l)) && !CanMove(u, s, Down(p, l));
    }
  }

  /** Every offer has been made, taken and answered. */
  lemma BothEnds(u: Setup, s: Pair, l: LinkId)
    requires Quiescent(u, s) && l in {u.x, u.y}
    ensures l in s.a.state && l in s.b.state && l in s.answered
  {
    var p := Offerer(u, l);
    assert !CanMove(u, s, SendOffer(p, l));
    assert !CanMove(u, s, TakeOffer(!p, l));
    assert !CanMove(u, s, TakeAnswer(p, l));
  }

  lemma RestSettles(u: Setup, s: Pair, p: bool)
    requires Proper(u) && GoodPair(u, s) && AtRest(u, s, p) && AtRest(u, s, !p)
    ensures Settled(u, Of(s, p), IdOf(u, !p))
  {
    hide Good, Acquainted, Settled;
    var me, other, peer := Of(s, p), Of(s, !p), IdOf(u, !p);
    assert GoodEnd(u, s, p) && GoodEnd(u, s, !p);
    RestingX(u, me, peer, other, IdOf(u, p));
    RestingX(u, other, IdOf(u, p), me, peer);
    RestingY(u, me, peer);
    RestingY(u, other, IdOf(u, p));
    SettledFrom(u, me, peer);
  }

  /** With the first link connected and no handler waiting, the other cannot be online. */
  lemma RestingY(u: Setup, a: Acc, peer: Id)
    requires Proper(u) && Good(u, a, peer) && a.linkOf == map[peer := u.x] && u.y in a.state && a.events == []
    ensures a.state[u.y] != Online
  {
    hide Paired;
    assert Placed(u, a, u.y);
    InverseAt(a, u.y);
  }

  lemma InverseAt(a: Acc, l: LinkId)
    requires Paired(a)
    ensures l in a.nodeOf ==> a.nodeOf[l] in a.linkOf && a.linkOf[a.nodeOf[l]] == l && l !in a.offerOf
    ensures a.nodeOf.Keys <= a.state.Keys && a.offerOf.Keys <= a.state.Keys
  {}

  lemma NoOffersLeft(a: Acc)
    requires Paired(a) && a.offerOf.Keys == {}
    ensures a.offers == map[]
  {}

  lemma SettledFrom(u: Setup, a: Acc, peer: Id)
    requires Proper(u) && Good(u, a, peer) && a.events == []
    requires u.x in a.state && a.state[u.x] == Online && a.linkOf == map[peer := u.x]
    requires u.y in a.state && a.state[u.y] == Disabled
    ensures Settled(u, a, peer)
  {
    hide Paired;
    assert Placed(u, a, u.y) && Placed(u, a, u.x);
    InverseAt(a, u.x);
    assert a.offerOf.Keys == {};
    NoOffersLeft(a);
    assert a.nodeOf.Keys == {u.x} && a.nodeOf[u.x] == peer;
  }

  lemma RestingX(u: Setup, a: Acc, peer: Id, b: Acc, peer': Id)
    requires Good(u, a, peer) && Good(u, b, peer') && u.x in a.state && u.x in b.state && a.events == []
    requires a.state[u.x] == Connecting ==> b.state[u.x] == Disabled
    ensures a.state[u.x] == Online && a.linkOf == map[peer := u.x]
  {
    hide Paired, GoodEvent;
    assert Placed(u, a, u.x) && Placed(u, b, u.x);
    InverseAt(a, u.x);
  }

  // ---------------------------------------------------------------- termination

  function Rank(a: Acc, l: LinkId): nat {
    if l !in a.state then 5
    else match a.state[l] case Connecting => 4 case Online => 2 case Disabled => 0
  }

  function Effort(u: Setup, a: Acc): nat {
    Rank(a, u.x) + Rank(a, u.y) + |a.events|
  }

  lemma DisconnectEffort(u: Setup, a: Acc, l: LinkId)
    requires Proper(u) && a.state.Keys <= {u.x, u.y}
    ensures Effort(u, DisconnectLink(a, l)) <= Effort(u, a)
  {
    hide Disable, ForgetNode, ForgetOffer;
    DisableEffort(u, a, l);
    ForgetEffort(u, Disable(a, l), l);
    ForgetEffort(u, ForgetNode(Disable(a, l), l), l);
  }

  lemma DisableEffort(u: Setup, a: Acc, l: LinkId)
    requires Proper(u) && a.state.Keys <= {u.x, u.y}
    ensures Effort(u, Disable(a, l)) <= Effort(u, a)
  {}

  lemma ForgetEffort(u: Setup, a: Acc, l: LinkId)
    ensures Effort(u, ForgetNode(a, l)) == Effort(u, a) && Effort(u, ForgetOffer(a, l)) == Effort(u, a)
  {}

  /** What is left to do: at both ends, and answers not yet taken. */
  function Load(u: Setup, s: Pair): nat {
    Effort(u, s.a) + Effort(u, s.b) + (if u.x in s.answered then 0 else 1) + (if u.y in s.answered then 0 else 1)
  }

  lemma MoveEffort(u: Setup, s: Pair, m: Move)
    requires Proper(u) && GoodPair(u, s) && CanMove(u, s, m) && SafeMove(u, s, m)
    ensures Load(u, Moved(u, s, m)) < Load(u, s)
  {
    hide Good, Acquainted, Ordered, DisconnectLink, HandleOnline, HandlerSafe, Effort, AddOffer, TransportChange;
    hide SignalingAnswer;
    var me := Of(s, m.p);
    assert GoodEnd(u, s, m.p);
    EndKeys(u, me, IdOf(u, !m.p));
    match m
    case SendOffer(p, l) => CreateEffort(u, me, l, Addressee(u, l));
    case TakeOffer(p, l) =>
      UnusedOffer(u, me, IdOf(u, !p), l);
      CreateEffort(u, me, l, Some(IdOf(u, !p)));
    case TakeAnswer(p, l) => AnswerEffort(u, me, IdOf(u, !p), l);
    case Up(_, l) => TransportEffort(u, me, l, Online);
    case Down(_, l) => TransportEffort(u, me, l, Disabled);
    case Handler(_, i) =>
      var l, a1 := me.events[i].link, Take(me, i);
      TakeEffort(u, me, i);
      DisconnectEffort(u, a1, l);
      if me.events[i].state == Online { OnlineEffort(u, a1, l); }
  }

  lemma AnswerEffort(u: Setup, a: Acc, src: Id, l: LinkId)
    ensures Effort(u, SignalingAnswer(a, src, l, false)) == Effort(u, a)
  {}

  lemma CreateEffort(u: Setup, a: Acc, l: LinkId, peer: Option<Id>)
    requires Proper(u) && l in {u.x, u.y} && l !in a.state
    ensures Effort(u, AddOffer(a, l, l, LabelOf(u, l), peer)) < Effort(u, a)
  {}

  lemma TransportEffort(u: Setup, a: Acc, l: LinkId, s: LinkState)
    requires Proper(u) && l in a.state && l in {u.x, u.y}
    requires (s == Online && a.state[l] == Connecting) || (s == Disabled && a.state[l] != Disabled)
    ensures Effort(u, TransportChange(a, l, s)) < Effort(u, a)
  {}

  lemma TakeEffort(u: Setup, a: Acc, i: nat)
    requires i < |a.events|
    ensures Effort(u, Take(a, i)) < Effort(u, a) && Take(a, i).state == a.state
  {}

  lemma EndKeys(u: Setup, a: Acc, peer: Id)
    requires Good(u, a, peer)
    ensures a.state.Keys <= {u.x, u.y}
  {}

  lemma OnlineEffort(u: Setup, a: Acc, l: LinkId)
    requires Proper(u) && HandlerSafe(a, l) && a.state.Keys <= {u.x, u.y}
    ensures Effort(u, HandleOnline(a, l)) <= Effort(u, a)
  {
    hide DisconnectLink, Effort;
    if l in a.offerOf {
      ForgetEffort(u, a, l);
      var a1 := ForgetOffer(a, l);
      DisconnectEffort(u, a1, l);
      var node := a.offers[a.offerOf[l]].node.value;
      if node in a1.linkOf {
        DisconnectEffort(u, a1, a1.linkOf[node]);
        PromoteEffort(u, DisconnectLink(a1, a1.linkOf[node]), l, node);
      }
      PromoteEffort(u, a1, l, node);
    }
  }

  lemma PromoteEffort(u: Setup, a: Acc, l: LinkId, node: Id)
    ensures Effort(u, Promote(a, l, node)) == Effort(u, a)
  {}

  /** No run is longer than 22 moves, so every run comes to rest. */
  lemma {:induction false} RunsAreShort(u: Setup, tr: seq<Pair>, moves: seq<Move>, k: nat)
    requires Proper(u) && Run(u, tr, moves) && k < |tr|
    ensures Load(u, tr[k]) + k <= 22
  {
    hide Good, CanMove, SafeMove, Moved, Load;
    if k == 0 {
      EmptyLoad(u);
    } else {
      RunsAreShort(u, tr, moves, k - 1);
      RunKeeps(u, tr, moves, k - 1);
      assert Moves(u, tr[k - 1], moves[k - 1], tr[k - 1 + 1]);
      MoveEffort(u, tr[k - 1], moves[k - 1]);
    }
  }

  lemma EmptyLoad(u: Setup)
    ensures Load(u, Pair(EMPTY, EMPTY, {})) == 22
  {}
}

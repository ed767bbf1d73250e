/** The links of a node: connected ones by peer, connecting ones by offer
    (node/internal/network/node_accessor/node_accessor.go). */
module Accessor {
  import opened NodeIds
  import opened Ring
  import opened NodeLink
  import opened Sets

  type LinkId = nat

  datatype Offer = Offer(link: LinkId, node: Option<Id>)

  /** A spawned call of the state-change handler. */
  datatype Event = Event(link: LinkId, state: LinkState)

  /** The four maps, the state and label of every link created so far, and the handlers still to run. */
  datatype Acc = Acc(
    linkOf: map<Id, LinkId>,
    nodeOf: map<LinkId, Id>,
    offers: map<nat, Offer>,
    offerOf: map<LinkId, nat>,
    state: map<LinkId, LinkState>,
    labels: map<LinkId, nat>,
    events: seq<Event>)

  const EMPTY := Acc(map[], map[], map[], map[], map[], map[], [])

  /** The maps are two inverse pairs, and no link is both connected and connecting. */
  ghost predicate Paired(a: Acc) {
    && (forall n :: n in a.linkOf ==> a.linkOf[n] in a.nodeOf && a.nodeOf[a.linkOf[n]] == n)
    && (forall l :: l in a.nodeOf ==> a.nodeOf[l] in a.linkOf && a.linkOf[a.nodeOf[l]] == l)
    && (forall o :: o in a.offers ==> a.offers[o].link in a.offerOf && a.offerOf[a.offers[o].link] == o)
    && (forall l :: l in a.offerOf ==> a.offerOf[l] in a.offers && a.offers[a.offerOf[l]].link == l)
    && a.nodeOf.Keys !! a.offerOf.Keys
    && a.nodeOf.Keys <= a.state.Keys && a.offerOf.Keys <= a.state.Keys
    && a.state.Keys == a.labels.Keys
  }

  // ---------------------------------------------------------------- steps

  /** nodeLink.disconnect: a link that was not disabled becomes so and its handler is spawned. */
  function Disable(a: Acc, l: LinkId): Acc {
    if l in a.state && a.state[l] != Disabled then
      a.(state := a.state[l := Disabled], events := a.events + [Event(l, Disabled)])
    else a
  }

  function ForgetNode(a: Acc, l: LinkId): Acc {
    if l in a.nodeOf then a.(linkOf := a.linkOf - {a.nodeOf[l]}, nodeOf := a.nodeOf - {l}) else a
  }

  function ForgetOffer(a: Acc, l: LinkId): Acc {
    if l in a.offerOf then a.(offers := a.offers - {a.offerOf[l]}, offerOf := a.offerOf - {l}) else a
  }

  function DisconnectLink(a: Acc, l: LinkId): Acc {
    ForgetOffer(ForgetNode(Disable(a, l), l), l)
  }

  /** A new connecting link under an offer ID. */
  function AddOffer(a: Acc, offerID: nat, l: LinkId, lab: nat, node: Option<Id>): Acc {
    a.(offers := a.offers[offerID := Offer(l, node)], offerOf := a.offerOf[l := offerID],
       state := a.state[l := Connecting], labels := a.labels[l := lab])
  }

  /** An offer is rejected when its ID is pending for somebody else, and otherwise gets a link. */
  function SignalingOffer(a: Acc, src: Id, offerID: nat, l: LinkId, lab: nat): Acc {
    if offerID in a.offers && a.offers[offerID].node != Some(src) then a
    else AddOffer(a, offerID, l, lab, Some(src))
  }

  function SignalingAnswer(a: Acc, src: Id, offerID: nat, reject: bool): Acc {
    if offerID !in a.offers then a
    else
      var o := a.offers[offerID];
      if o.node.Some? && o.node != Some(src) then a
      else
        var a1 := a.(offers := a.offers[offerID := o.(node := Some(src))]);
        if reject then DisconnectLink(a1, o.link) else a1
  }

  /** The transport reports a change of a link's state. */
  function TransportChange(a: Acc, l: LinkId, s: LinkState): Acc
    requires l in a.state
  {
    if a.state[l] == s then a else a.(state := a.state[l := s], events := a.events + [Event(l, s)])
  }

  function Promote(a: Acc, l: LinkId, node: Id): Acc {
    a.(linkOf := a.linkOf[node := l], nodeOf := a.nodeOf[l := node])
  }

  /** The online handler of `l` does not panic: what it dereferences exists, the peer of a connecting
      link is known, and an online link to the same peer has another label. */
  predicate HandlerSafe(a: Acc, l: LinkId) {
    l in a.offerOf ==>
      && l in a.labels && a.offerOf[l] in a.offers && a.offers[a.offerOf[l]].node.Some?
      && var node := a.offers[a.offerOf[l]].node.value;
         node in a.linkOf ==>
           && a.linkOf[node] in a.state && a.linkOf[node] in a.labels
           && (a.state[a.linkOf[node]] == Online ==> a.labels[a.linkOf[node]] != a.labels[l])
  }

  /** A connecting link knows its peer; other links need not. */
  predicate PeerKnown(a: Acc, l: LinkId) {
    l in a.offerOf ==> a.offerOf[l] in a.offers && a.offers[a.offerOf[l]].node.Some?
  }

  ghost predicate LabelsDiffer(a: Acc) {
    forall k, l :: k in a.labels && l in a.labels && k != l ==> a.labels[k] != a.labels[l]
  }

  ghost predicate EventsKnown(a: Acc) {
    forall e :: e in a.events ==> e.link in a.state && (e.state == Online ==> PeerKnown(a, e.link))
  }

  /** What every run keeps: the pairs, one label per link, and a known peer for every connecting link
      whose online handler is still to run. */
  ghost predicate Ready(a: Acc) {
    Paired(a) && LabelsDiffer(a) && EventsKnown(a)
  }

  lemma HandlerSafeWhenReady(a: Acc, l: LinkId)
    requires Paired(a) && LabelsDiffer(a) && PeerKnown(a, l)
    ensures HandlerSafe(a, l)
  {}

  /** The handler of an online link: it becomes the link to its peer unless the peer already has an
      online link with a smaller label. */
  function HandleOnline(a: Acc, l: LinkId): Acc
    requires HandlerSafe(a, l)
  {
    if l !in a.offerOf then a
    else
      var node := a.offers[a.offerOf[l]].node.value;
      var a1 := ForgetOffer(a, l);
      if node in a1.linkOf then
        var e := a1.linkOf[node];
        if a1.state[e] != Online || a1.labels[e] > a1.labels[l] then Promote(DisconnectLink(a1, e), l, node)
        else DisconnectLink(a1, l)
      else Promote(a1, l, node)
  }

  // ---------------------------------------------------------------- every step keeps the pairs

  lemma DisconnectKeeps(a: Acc, l: LinkId)
    requires Paired(a)
    ensures Paired(DisconnectLink(a, l))
    ensures DisconnectLink(a, l).state.Keys == a.state.Keys && DisconnectLink(a, l).labels == a.labels
    ensures l !in DisconnectLink(a, l).nodeOf && l !in DisconnectLink(a, l).offerOf
  {
    hide Paired, Disable, ForgetNode, ForgetOffer;
    DisableKeeps(a, l);
    ForgetNodeKeeps(Disable(a, l), l);
    ForgetOfferKeeps(ForgetNode(Disable(a, l), l), l);
  }

  lemma DisableKeeps(a: Acc, l: LinkId)
    requires Paired(a)
    ensures Paired(Disable(a, l))
    ensures var d := Disable(a, l);
            d.state.Keys == a.state.Keys && d == a.(state := d.state, events := d.events)
  {}

  lemma ForgetNodeKeeps(a: Acc, l: LinkId)
    requires Paired(a)
    ensures Paired(ForgetNode(a, l)) && ForgetNode(a, l).nodeOf == a.nodeOf - {l}
    ensures var d := ForgetNode(a, l); d == a.(linkOf := d.linkOf, nodeOf := d.nodeOf)
  {}

  lemma ForgetOfferKeeps(a: Acc, l: LinkId)
    requires Paired(a)
    ensures Paired(ForgetOffer(a, l)) && ForgetOffer(a, l).offerOf == a.offerOf - {l}
    ensures var d := ForgetOffer(a, l); d == a.(offers := d.offers, offerOf := d.offerOf)
  {}

  /** Disconnecting removes the entries of that link and no others. */
  lemma DisconnectRemovesOnly(a: Acc, l: LinkId)
    requires Paired(a)
    ensures var d := DisconnectLink(a, l);
            && (forall n :: n in d.linkOf <==> n in a.linkOf && a.linkOf[n] != l)
            && (forall n :: n in d.linkOf ==> d.linkOf[n] == a.linkOf[n])
            && (forall o :: o in d.offers <==> o in a.offers && a.offers[o].link != l)
            && (forall o :: o in d.offers ==> d.offers[o] == a.offers[o])
  {
    hide Paired, Disable, ForgetNode, ForgetOffer;
    DisableKeeps(a, l);
    ForgetNodeKeeps(Disable(a, l), l);
    ForgetNodeOnly(Disable(a, l), l);
    ForgetOfferOnly(ForgetNode(Disable(a, l), l), l);
    ForgetOfferKeeps(ForgetNode(Disable(a, l), l), l);
  }

  lemma ForgetNodeOnly(a: Acc, l: LinkId)
    requires Paired(a)
    ensures var d := ForgetNode(a, l);
            && (forall n :: n in d.linkOf <==> n in a.linkOf && a.linkOf[n] != l)
            && (forall n :: n in d.linkOf ==> d.linkOf[n] == a.linkOf[n])
  {}

  lemma ForgetOfferOnly(a: Acc, l: LinkId)
    requires Paired(a)
    ensures var d := ForgetOffer(a, l);
            && (forall o :: o in d.offers <==> o in a.offers && a.offers[o].link != l)
            && (forall o :: o in d.offers ==> d.offers[o] == a.offers[o])
  {}

  lemma AddOfferKeeps(a: Acc, offerID: nat, l: LinkId, lab: nat, node: Option<Id>)
    requires Paired(a) && l !in a.state && offerID !in a.offers
    ensures Paired(AddOffer(a, offerID, l, lab, node))
  {}

  /** A received offer keeps the pairs exactly when it does not repeat an offer pending for the same
      node: then the old link stays behind without an offer. */
  lemma SignalingOfferKeepsIff(a: Acc, src: Id, offerID: nat, l: LinkId, lab: nat)
    requires Paired(a) && l !in a.state
    ensures Paired(SignalingOffer(a, src, offerID, l, lab)) <==>
            !(offerID in a.offers && a.offers[offerID].node == Some(src))
  {
    if offerID in a.offers && a.offers[offerID].node == Some(src) {
      var stale := a.offers[offerID].link;
      var a' := SignalingOffer(a, src, offerID, l, lab);
      assert stale in a'.offerOf && a'.offerOf[stale] == offerID;
    }
  }

  lemma SignalingAnswerKeeps(a: Acc, src: Id, offerID: nat, reject: bool)
    requires Paired(a)
    ensures Paired(SignalingAnswer(a, src, offerID, reject))
  {
    if offerID in a.offers {
      var o := a.offers[offerID];
      var a1 := a.(offers := a.offers[offerID := o.(node := Some(src))]);
      assert Paired(a1);
      DisconnectKeeps(a1, o.link);
    }
  }

  lemma PromoteKeeps(a: Acc, l: LinkId, node: Id)
    requires Paired(a) && node !in a.linkOf && l !in a.nodeOf && l !in a.offerOf && l in a.state
    ensures Paired(Promote(a, l, node))
  {}

  lemma HandleOnlineKeeps(a: Acc, l: LinkId)
    requires Paired(a) && HandlerSafe(a, l)
    ensures Paired(HandleOnline(a, l))
    ensures HandleOnline(a, l).state.Keys == a.state.Keys && HandleOnline(a, l).labels == a.labels
  {
    hide Paired, DisconnectLink, ForgetOffer;
    if l in a.offerOf {
      var node := a.offers[a.offerOf[l]].node.value;
      var a1 := ForgetOffer(a, l);
      ForgetOfferKeeps(a, l);
      OfferLink(a, l);
      if node in a1.linkOf {
        DisconnectKeeps(a1, a1.linkOf[node]);
        DisconnectDropsNode(a1, node, l);
        DisconnectKeeps(a1, l);
        if a1.state[a1.linkOf[node]] != Online || a1.labels[a1.linkOf[node]] > a1.labels[l] {
          PromoteKeeps(DisconnectLink(a1, a1.linkOf[node]), l, node);
        }
      } else {
        PromoteKeeps(a1, l, node);
      }
    }
  }

  lemma OfferLink(a: Acc, l: LinkId)
    requires Paired(a) && l in a.offerOf
    ensures l !in a.nodeOf && l in a.state
  {}

  lemma DisconnectDropsNode(a: Acc, node: Id, l: LinkId)
    requires Paired(a) && node in a.linkOf && l !in a.nodeOf && l !in a.offerOf
    ensures var d := DisconnectLink(a, a.linkOf[node]); node !in d.linkOf && l !in d.nodeOf && l !in d.offerOf
  {
    hide Paired, Disable, ForgetNode, ForgetOffer;
    var e := a.linkOf[node];
    DisconnectRemovesOnly(a, e);
    DisableKeeps(a, e);
    ForgetNodeKeeps(Disable(a, e), e);
    ForgetOfferKeeps(ForgetNode(Disable(a, e), e), e);
  }

  lemma TransportKeeps(a: Acc, l: LinkId, s: LinkState)
    requires Paired(a) && l in a.state
    ensures Paired(TransportChange(a, l, s))
  {}

  // ---------------------------------------------------------------- peers and labels

  /** `d` has at most the offers and pending online handlers of `a`. */
  ghost predicate Shrinks(a: Acc, d: Acc) {
    && (forall o :: o in d.offers ==> o in a.offers && d.offers[o] == a.offers[o])
    && (forall l :: l in d.offerOf ==> l in a.offerOf && d.offerOf[l] == a.offerOf[l])
    && (forall e :: e in d.events ==> e in a.events || (e.state == Disabled && e.link in a.state))
    && d.state.Keys == a.state.Keys && d.labels == a.labels
  }

  lemma ShrunkReady(a: Acc, d: Acc)
    requires Ready(a) && Paired(d) && Shrinks(a, d)
    ensures Ready(d)
  {
    forall e | e in d.events ensures e.link in d.state && (e.state == Online ==> PeerKnown(d, e.link)) {
      if e in a.events { assert e.state == Online ==> PeerKnown(a, e.link); }
    }
  }

  lemma ShrinksTwice(a: Acc, b: Acc, c: Acc)
    requires Shrinks(a, b) && Shrinks(b, c)
    ensures Shrinks(a, c)
  {}

  lemma DisconnectShrinks(a: Acc, l: LinkId)
    ensures Shrinks(a, DisconnectLink(a, l))
  {
    hide Shrinks, Disable, ForgetNode, ForgetOffer;
    var a1 := Disable(a, l);
    var a2 := ForgetNode(a1, l);
    DisableShrinks(a, l);
    ForgetShrinks(a1, l);
    ForgetShrinks(a2, l);
    ShrinksTwice(a, a1, a2);
    ShrinksTwice(a, a2, ForgetOffer(a2, l));
  }

  lemma DisableShrinks(a: Acc, l: LinkId)
    ensures Shrinks(a, Disable(a, l))
  {}

  lemma ForgetShrinks(a: Acc, l: LinkId)
    ensures Shrinks(a, ForgetNode(a, l)) && Shrinks(a, ForgetOffer(a, l))
  {}

  lemma PromoteShrinks(a: Acc, b: Acc, l: LinkId, node: Id)
    requires Shrinks(a, b)
    ensures Shrinks(a, Promote(b, l, node))
  {}

  lemma OnlineShrinks(a: Acc, l: LinkId)
    requires HandlerSafe(a, l)
    ensures Shrinks(a, HandleOnline(a, l))
  {
    hide Shrinks, ForgetOffer, DisconnectLink, Promote;
    if l !in a.offerOf {
      SelfShrinks(a);
    } else {
      var node, a1 := a.offers[a.offerOf[l]].node.value, ForgetOffer(a, l);
      ForgetShrinks(a, l);
      ForgetKeepsLinks(a, l);
      PromoteShrinks(a, a1, l, node);
      DisconnectShrinks(a1, l);
      ShrinksTwice(a, a1, DisconnectLink(a1, l));
      if node in a1.linkOf {
        var d := DisconnectLink(a1, a1.linkOf[node]);
        DisconnectShrinks(a1, a1.linkOf[node]);
        ShrinksTwice(a, a1, d);
        PromoteShrinks(a, d, l, node);
      }
    }
  }

  lemma SelfShrinks(a: Acc)
    ensures Shrinks(a, a)
  {}

  lemma ForgetKeepsLinks(a: Acc, l: LinkId)
    ensures var d := ForgetOffer(a, l); d.linkOf == a.linkOf && d.state == a.state && d.labels == a.labels
  {}

  lemma TakeShrinks(a: Acc, i: nat)
    requires i < |a.events|
    ensures Shrinks(a, Take(a, i)) && (Paired(a) ==> Paired(Take(a, i)))
  {}

  lemma AddOfferReady(a: Acc, offerID: nat, l: LinkId, lab: nat, node: Option<Id>)
    requires Ready(a) && l !in a.state && offerID !in a.offers && lab !in a.labels.Values
    ensures Ready(AddOffer(a, offerID, l, lab, node))
  {
    hide Paired;
    AddOfferKeeps(a, offerID, l, lab, node);
    LabelledLinks(a);
    AddOfferEvents(a, offerID, l, lab, node);
  }

  lemma LabelledLinks(a: Acc)
    requires Paired(a)
    ensures a.state.Keys == a.labels.Keys
  {}

  lemma AddOfferEvents(a: Acc, offerID: nat, l: LinkId, lab: nat, node: Option<Id>)
    requires EventsKnown(a) && l !in a.state && offerID !in a.offers
    ensures EventsKnown(AddOffer(a, offerID, l, lab, node))
  {
    var d := AddOffer(a, offerID, l, lab, node);
    forall e | e in d.events ensures e.link in d.state && (e.state == Online ==> PeerKnown(d, e.link)) {
      assert e.link in a.state && (e.state == Online ==> PeerKnown(a, e.link));
    }
  }

  lemma AnswerReady(a: Acc, src: Id, offerID: nat, reject: bool)
    requires Ready(a)
    ensures Ready(SignalingAnswer(a, src, offerID, reject))
  {
    hide DisconnectLink, Shrinks;
    if offerID in a.offers {
      var o := a.offers[offerID];
      var a1 := a.(offers := a.offers[offerID := o.(node := Some(src))]);
      assert Ready(a1) by { NamedReady(a, src, offerID); }
      DisconnectReady(a1, o.link);
    }
  }

  /** An offer that learns its peer. */
  lemma NamedReady(a: Acc, src: Id, offerID: nat)
    requires Ready(a) && offerID in a.offers
    ensures Ready(a.(offers := a.offers[offerID := a.offers[offerID].(node := Some(src))]))
  {
    var d := a.(offers := a.offers[offerID := a.offers[offerID].(node := Some(src))]);
    assert Paired(d);
    forall e | e in d.events ensures e.link in d.state && (e.state == Online ==> PeerKnown(d, e.link)) {
      assert e.state == Online ==> PeerKnown(a, e.link);
    }
  }

  lemma DisconnectReady(a: Acc, l: LinkId)
    requires Ready(a)
    ensures Ready(DisconnectLink(a, l))
  {
    hide Paired, LabelsDiffer, EventsKnown, Shrinks, DisconnectLink;
    DisconnectKeeps(a, l);
    DisconnectShrinks(a, l);
    ShrunkReady(a, DisconnectLink(a, l));
  }

  lemma TransportReady(a: Acc, l: LinkId, s: LinkState)
    requires Ready(a) && l in a.state && (s == Online ==> PeerKnown(a, l))
    ensures Ready(TransportChange(a, l, s))
  {
    hide Paired;
    TransportKeeps(a, l, s);
    var d := TransportChange(a, l, s);
    forall e | e in d.events ensures e.link in d.state && (e.state == Online ==> PeerKnown(d, e.link)) {
      if e in a.events { assert e.state == Online ==> PeerKnown(a, e.link); }
    }
  }

  /** A pending handler runs without a panic and leaves the state ready. */
  lemma HandlerReady(a: Acc, i: nat)
    requires Ready(a) && i < |a.events|
    ensures SafeStep(a, RunHandler(i)) && Ready(Apply(a, RunHandler(i)))
  {
    hide Paired, LabelsDiffer, Shrinks, HandleOnline, DisconnectLink, HandlerSafe;
    var e, a1 := a.events[i], Take(a, i);
    TakeShrinks(a, i);
    ShrunkReady(a, a1);
    if e.state == Online {
      assert e in a.events;
      assert PeerKnown(a, e.link);
      HandlerSafeWhenReady(a1, e.link);
      HandleOnlineKeeps(a1, e.link);
      OnlineShrinks(a1, e.link);
      ShrunkReady(a1, HandleOnline(a1, e.link));
    } else {
      DisconnectReady(a1, e.link);
    }
  }

  // ---------------------------------------------------------------- what the operations mean

  /** From `a` to `d` the link `l` and nothing else is disabled and leaves the maps; unless it was disabled
      already, its handler waits. */
  ghost predicate Disconnected(a: Acc, l: LinkId, d: Acc) {
    && (forall n :: n in d.linkOf <==> n in a.linkOf && a.linkOf[n] != l)
    && (forall n :: n in d.linkOf ==> d.linkOf[n] == a.linkOf[n])
    && (forall o :: o in d.offers <==> o in a.offers && a.offers[o].link != l)
    && (forall o :: o in d.offers ==> d.offers[o] == a.offers[o])
    && d.nodeOf == a.nodeOf - {l} && d.offerOf == a.offerOf - {l} && d.labels == a.labels
    && d.state == (if l in a.state then a.state[l := Disabled] else a.state)
    && d.events == a.events + (if l in a.state && a.state[l] != Disabled then [Event(l, Disabled)] else [])
  }

  lemma DisconnectIs(a: Acc, l: LinkId)
    requires Paired(a)
    ensures Disconnected(a, l, DisconnectLink(a, l))
  {
    hide Paired, Disable, ForgetNode, ForgetOffer;
    DisconnectRemovesOnly(a, l);
    DisableKeeps(a, l);
    DisableIs(a, l);
    ForgetNodeKeeps(Disable(a, l), l);
    ForgetOfferKeeps(ForgetNode(Disable(a, l), l), l);
  }

  lemma DisableIs(a: Acc, l: LinkId)
    ensures Disable(a, l).state == if l in a.state then a.state[l := Disabled] else a.state
    ensures Disable(a, l).events ==
            a.events + if l in a.state && a.state[l] != Disabled then [Event(l, Disabled)] else []
  {
    assert a.events + [] == a.events;
    if l in a.state && a.state[l] == Disabled { assert a.state[l := Disabled] == a.state; }
  }

  /** A new connecting link with its offer, and nothing else. */
  ghost predicate Added(a: Acc, o: nat, l: LinkId, lab: nat, node: Option<Id>, a': Acc) {
    && l in a'.state && a'.state[l] == Connecting && l in a'.labels && a'.labels[l] == lab
    && o in a'.offers && a'.offers[o] == Offer(l, node) && l in a'.offerOf && a'.offerOf[l] == o
    && a'.linkOf == a.linkOf && a'.nodeOf == a.nodeOf && a'.events == a.events
    && (forall k :: k in a.state && k != l ==> StateOf(a', k) == StateOf(a, k) && LabelOf(a', k) == LabelOf(a, k))
    && (forall p :: p != o ==> (p in a'.offers <==> p in a.offers) && (p in a.offers ==> a'.offers[p] == a.offers[p]))
    && a'.state.Keys == a.state.Keys + {l} && a'.offerOf.Keys == a.offerOf.Keys + {l}
  }

  lemma AddOfferIs(a: Acc, o: nat, l: LinkId, lab: nat, node: Option<Id>)
    ensures Added(a, o, l, lab, node, AddOffer(a, o, l, lab, node))
  {}

  /** A closed link: disabled, and in no map. */
  ghost predicate Gone(a: Acc, l: LinkId) {
    && l in a.state && a.state[l] == Disabled && l !in a.nodeOf && l !in a.offerOf
    && (forall n :: n in a.linkOf ==> a.linkOf[n] != l) && forall o :: o in a.offers ==> a.offers[o].link != l
  }

  /** An answer to an offer that is not pending, or is pending for somebody else, changes nothing. Otherwise
      an accepted offer stays pending on its link, now for `src`; a rejected one is gone with its link. */
  ghost predicate Answered(a: Acc, src: Id, offerID: nat, reject: bool, a': Acc) {
    if offerID !in a.offers || (a.offers[offerID].node.Some? && a.offers[offerID].node != Some(src)) then a' == a
    else if !reject then
      a' == a.(offers := a'.offers) && a'.offers == a.offers[offerID := Offer(a.offers[offerID].link, Some(src))]
    else
      var l := a.offers[offerID].link;
      && Gone(a', l) && a'.offers == a.offers - {offerID} && a'.offerOf == a.offerOf - {l}
      && a'.linkOf == a.linkOf && a'.nodeOf == a.nodeOf && a'.labels == a.labels && a'.state == a.state[l := Disabled]
      && a'.events == a.events + (if StateOf(a, l) != Some(Disabled) then [Event(l, Disabled)] else [])
  }

  lemma AnswerIs(a: Acc, src: Id, offerID: nat, reject: bool)
    requires Paired(a)
    ensures Answered(a, src, offerID, reject, SignalingAnswer(a, src, offerID, reject))
  {
    hide Paired, DisconnectLink;
    if offerID in a.offers && reject {
      var l := a.offers[offerID].link;
      var a1 := a.(offers := a.offers[offerID := Offer(l, Some(src))]);
      NamedPaired(a, src, offerID);
      DisconnectIs(a1, l);
      OfferAlone(a, offerID);
    }
  }

  lemma NamedPaired(a: Acc, src: Id, offerID: nat)
    requires Paired(a) && offerID in a.offers
    ensures Paired(a.(offers := a.offers[offerID := Offer(a.offers[offerID].link, Some(src))]))
  {}

  lemma OfferAlone(a: Acc, o: nat)
    requires Paired(a) && o in a.offers
    ensures var l := a.offers[o].link;
            && l in a.state && l in a.offerOf && l !in a.nodeOf && (forall n :: n in a.linkOf ==> a.linkOf[n] != l)
            && forall p :: p in a.offers && p != o ==> a.offers[p].link != l
  {}

  /** The peer of a connecting link. */
  ghost predicate OffersTo(a: Acc, l: LinkId, p: Id) {
    l in a.offerOf && a.offerOf[l] in a.offers && a.offers[a.offerOf[l]].node == Some(p)
  }

  /** The connecting link `l` to `p` has come up: `p` is connected over it exactly when it had no link, one
      that was not online, or one with a larger label, and over the link it had otherwise; the other of
      the two is closed, and nothing else changes. */
  ghost predicate Elected(a: Acc, l: LinkId, p: Id, a': Acc) {
    Winner(a, l, p, a') && OthersSame(a, l, p, a')
  }

  ghost predicate Winner(a: Acc, l: LinkId, p: Id, a': Acc) {
    && p in a'.linkOf && a'.linkOf[p] in a.state && a'.linkOf[p] in a'.state
    && (a'.linkOf[p] == l <==>
          p !in a.linkOf || StateOf(a, a.linkOf[p]) != Some(Online) || LabelOf(a, a.linkOf[p]) > LabelOf(a, l))
    && (a'.linkOf[p] != l ==> p in a.linkOf && a'.linkOf[p] == a.linkOf[p] && Gone(a', l))
    && (a'.linkOf[p] == l && p in a.linkOf ==> Gone(a', a.linkOf[p]))
    && a'.state[a'.linkOf[p]] == a.state[a'.linkOf[p]]
  }

  ghost predicate OthersSame(a: Acc, l: LinkId, p: Id, a': Acc) {
    && (forall k :: k in a.state && k != l && !(p in a.linkOf && k == a.linkOf[p]) ==> StateOf(a', k) == StateOf(a, k))
    && (forall n :: n != p ==> (n in a'.linkOf <==> n in a.linkOf) && (n in a.linkOf ==> a'.linkOf[n] == a.linkOf[n]))
    && a'.offerOf == a.offerOf - {l} && a'.labels == a.labels && a'.state.Keys == a.state.Keys
    && (forall o :: o in a'.offers <==> o in a.offers && a.offers[o].link != l)
    && (forall o :: o in a'.offers ==> a'.offers[o] == a.offers[o])
  }

  function StateOf(a: Acc, l: LinkId): Option<LinkState> {
    if l in a.state then Some(a.state[l]) else None
  }

  function LabelOf(a: Acc, l: LinkId): nat {
    if l in a.labels then a.labels[l] else 0
  }

  lemma OnlineElects(a: Acc, l: LinkId, p: Id)
    requires Paired(a) && HandlerSafe(a, l) && OffersTo(a, l, p)
    ensures Elected(a, l, p, HandleOnline(a, l))
  {
    hide Paired, DisconnectLink, ForgetOffer, Promote, Elected, Disconnected;
    var a1 := ForgetOffer(a, l);
    ForgetOfferKeeps(a, l);
    OfferForgotten(a, l);
    OfferLink(a, l);
    if p in a1.linkOf {
      ConnectedOnly(a1, p);
      LinksDistinct(a1);
      DisconnectIs(a1, a1.linkOf[p]);
      DisconnectIs(a1, l);
      if a1.state[a1.linkOf[p]] != Online || a1.labels[a1.linkOf[p]] > a1.labels[l] {
        ElectedOver(a, a1, l, p, DisconnectLink(a1, a1.linkOf[p]));
      } else {
        ElectedNot(a, a1, l, p, DisconnectLink(a1, l));
      }
    } else {
      ElectedFresh(a, a1, l, p);
    }
  }

  /** From `a` to `a1` the offer of `l` is forgotten. */
  ghost predicate Forgotten(a: Acc, l: LinkId, a1: Acc) {
    && a1 == a.(offers := a1.offers, offerOf := a.offerOf - {l})
    && (forall o :: o in a1.offers <==> o in a.offers && a.offers[o].link != l)
    && (forall o :: o in a1.offers ==> a1.offers[o] == a.offers[o])
  }

  lemma OfferForgotten(a: Acc, l: LinkId)
    requires Paired(a)
    ensures Forgotten(a, l, ForgetOffer(a, l))
  {
    hide Paired, ForgetOffer;
    ForgetOfferKeeps(a, l);
    ForgetOfferOnly(a, l);
  }

  lemma ElectedFresh(a: Acc, a1: Acc, l: LinkId, p: Id)
    requires Forgotten(a, l, a1) && p !in a.linkOf && l in a.state
    ensures Elected(a, l, p, Promote(a1, l, p))
  {}

  /** The link to `p` must give way to `l`, whose offer is forgotten in `a1`, and is disconnected in `d`. */
  ghost predicate GivesWay(a: Acc, a1: Acc, l: LinkId, p: Id, d: Acc) {
    && Forgotten(a, l, a1) && p in a.linkOf && l in a.state && a.linkOf[p] in a.state && a.linkOf[p] != l
    && a.state.Keys == a.labels.Keys
    && (a.state[a.linkOf[p]] != Online || a.labels[a.linkOf[p]] > a.labels[l])
    && Disconnected(a1, a.linkOf[p], d)
    && (forall n :: n in a.linkOf && n != p ==> a.linkOf[n] != a.linkOf[p])
    && (forall o :: o in a.offers ==> a.offers[o].link != a.linkOf[p])
    && a.linkOf[p] !in a.offerOf
  }

  lemma ElectedOver(a: Acc, a1: Acc, l: LinkId, p: Id, d: Acc)
    requires GivesWay(a, a1, l, p, d)
    ensures Elected(a, l, p, Promote(d, l, p))
  {
    hide Winner, OthersSame, GivesWay;
    WinnerOver(a, a1, l, p, d);
    OthersOver(a, a1, l, p, d);
  }

  lemma WinnerOver(a: Acc, a1: Acc, l: LinkId, p: Id, d: Acc)
    requires GivesWay(a, a1, l, p, d)
    ensures Winner(a, l, p, Promote(d, l, p))
  {}

  lemma OthersOver(a: Acc, a1: Acc, l: LinkId, p: Id, d: Acc)
    requires GivesWay(a, a1, l, p, d)
    ensures OthersSame(a, l, p, Promote(d, l, p))
  {}

  lemma ElectedNot(a: Acc, a1: Acc, l: LinkId, p: Id, d: Acc)
    requires Forgotten(a, l, a1) && p in a.linkOf && l in a.state && a.linkOf[p] in a.state && a.linkOf[p] != l
    requires a.state.Keys == a.labels.Keys
    requires a.state[a.linkOf[p]] == Online && a.labels[a.linkOf[p]] <= a.labels[l]
    requires Disconnected(a1, l, d) && l !in a.nodeOf && forall n :: n in a.linkOf ==> a.linkOf[n] != l
    ensures Elected(a, l, p, d)
  {}

  lemma LinksDistinct(a: Acc)
    requires Paired(a)
    ensures forall m, n :: m in a.linkOf && n in a.linkOf && m != n ==> a.linkOf[m] != a.linkOf[n]
  {}

  lemma ConnectedOnly(a: Acc, p: Id)
    requires Paired(a) && p in a.linkOf
    ensures var e := a.linkOf[p];
            e in a.nodeOf && e !in a.offerOf && e in a.state && e in a.labels &&
            forall o :: o in a.offers ==> a.offers[o].link in a.offerOf && a.offers[o].link != e
    ensures a.state.Keys == a.labels.Keys
    ensures forall l :: l !in a.nodeOf ==> forall n :: n in a.linkOf ==> a.linkOf[n] != l
  {}

  /** The peer of a link that is online when its handler runs is connected over an online link. */
  lemma OnlineConnects(a: Acc, l: LinkId, p: Id)
    requires Paired(a) && HandlerSafe(a, l) && OffersTo(a, l, p) && l in a.state && a.state[l] == Online
    ensures var a' := HandleOnline(a, l);
            p in a'.linkOf && a'.linkOf[p] in a'.state && a'.state[a'.linkOf[p]] == Online
  {
    hide Paired, HandleOnline, HandlerSafe;
    OnlineElects(a, l, p);
  }

  // ---------------------------------------------------------------- every run

  datatype Step =
    | Connect(offerID: nat, link: LinkId, lab: nat, node: Option<Id>)
    | RecvOffer(src: Id, offerID: nat, link: LinkId, lab: nat)
    | RecvAnswer(src: Id, offerID: nat, reject: bool)
    | Transport(link: LinkId, state: LinkState)
    | RunHandler(i: nat)
    | Drop(link: LinkId)

  /** What is assumed of the surroundings. Links, labels and offer IDs are new where they are created,
      offers are not repeated while pending, and the transport brings a connecting link up only after
      its offer knows the peer, whose description the link needs. Any pending handler may run. */
  ghost predicate Enabled(a: Acc, s: Step) {
    match s
    case Connect(offerID, l, lab, _) => l !in a.state && offerID !in a.offers && lab !in a.labels.Values
    case RecvOffer(src, offerID, l, lab) =>
      l !in a.state && lab !in a.labels.Values && !(offerID in a.offers && a.offers[offerID].node == Some(src))
    case RecvAnswer(_, _, _) => true
    case Transport(l, st) => l in a.state && (st == Online ==> PeerKnown(a, l))
    case RunHandler(i) => i < |a.events|
    case Drop(_) => true
  }

  function Take(a: Acc, i: nat): Acc
    requires i < |a.events|
  {
    a.(events := a.events[..i] + a.events[i + 1..])
  }

  /** The step does not panic. */
  ghost predicate SafeStep(a: Acc, s: Step)
    requires Enabled(a, s)
  {
    s.RunHandler? && a.events[s.i].state == Online ==> HandlerSafe(Take(a, s.i), a.events[s.i].link)
  }

  ghost function Apply(a: Acc, s: Step): Acc
    requires Enabled(a, s) && SafeStep(a, s)
  {
    match s
    case Connect(offerID, l, lab, node) => AddOffer(a, offerID, l, lab, node)
    case RecvOffer(src, offerID, l, lab) => SignalingOffer(a, src, offerID, l, lab)
    case RecvAnswer(src, offerID, reject) => SignalingAnswer(a, src, offerID, reject)
    case Transport(l, st) => TransportChange(a, l, st)
    case RunHandler(i) =>
      var e := a.events[i];
      if e.state == Online then HandleOnline(Take(a, i), e.link)
      else if e.state == Disabled then DisconnectLink(Take(a, i), e.link)
      else Take(a, i)
    case Drop(l) => DisconnectLink(a, l)
  }

  lemma StepKeeps(a: Acc, s: Step)
    requires Ready(a) && Enabled(a, s)
    ensures SafeStep(a, s) && Ready(Apply(a, s))
  {
    hide Ready, AddOffer, SignalingAnswer, TransportChange, DisconnectLink;
    match s
    case Connect(offerID, l, lab, node) => AddOfferReady(a, offerID, l, lab, node);
    case RecvOffer(src, offerID, l, lab) => if offerID !in a.offers { AddOfferReady(a, offerID, l, lab, Some(src)); }
    case RecvAnswer(src, offerID, reject) => AnswerReady(a, src, offerID, reject);
    case Transport(l, st) => TransportReady(a, l, st);
    case RunHandler(i) => HandlerReady(a, i);
    case Drop(l) => DisconnectReady(a, l);
  }

  /** A step that would panic may end in any state. */
  ghost predicate Next(a: Acc, s: Step, a': Acc) {
    Enabled(a, s) && (SafeStep(a, s) ==> a' == Apply(a, s))
  }

  ghost predicate Run(tr: seq<Acc>, steps: seq<Step>) {
    |tr| == |steps| + 1 && tr[0] == EMPTY && forall k :: 0 <= k < |steps| ==> Next(tr[k], steps[k], tr[k + 1])
  }

  /** In every state of every run the four maps are inverse pairs over disjoint links, labels differ,
      every link with a pending online handler knows its peer, and so no step panics. */
  lemma {:induction false} RunKeepsPairs(tr: seq<Acc>, steps: seq<Step>, k: nat)
    requires Run(tr, steps) && k < |tr|
    ensures Ready(tr[k])
    ensures k < |steps| ==> Enabled(tr[k], steps[k]) && SafeStep(tr[k], steps[k])
  {
    hide Ready, Enabled, SafeStep, Apply;
    if k == 0 {
      EmptyReady();
    } else {
      RunKeepsPairs(tr, steps, k - 1);
      assert Next(tr[k - 1], steps[k - 1], tr[k - 1 + 1]);
      StepKeeps(tr[k - 1], steps[k - 1]);
    }
    if k < |steps| {
      assert Next(tr[k], steps[k], tr[k + 1]);
      StepKeeps(tr[k], steps[k]);
    }
  }

  lemma EmptyReady()
    ensures Ready(EMPTY)
  {}

  // ---------------------------------------------------------------- the object

  ghost predicate HasOffer(a: Acc, n: Id) {
    exists o :: o in a.offers && a.offers[o].node == Some(n)
  }

  /** Connected over a link that is not disabled, or being connected. */
  ghost predicate Attended(a: Acc, n: Id) {
    (n in a.linkOf && a.linkOf[n] in a.state && a.state[a.linkOf[n]] != Disabled) || HasOffer(a, n)
  }

  predicate Linked(a: Acc, n: Id, l: LinkId) {
    n in a.linkOf && a.linkOf[n] == l
  }

  /** Connected over a link that has become disabled. */
  predicate Broken(a: Acc, n: Id) {
    n in a.linkOf && a.linkOf[n] in a.state && a.state[a.linkOf[n]] == Disabled
  }

  lemma DisconnectKeepsAttended(a: Acc, l: LinkId, n: Id)
    requires Paired(a) && Attended(a, n)
    requires n in a.linkOf ==> a.linkOf[n] != l
    requires l !in a.offerOf
    ensures Attended(DisconnectLink(a, l), n)
  {
    hide Paired;
    DisconnectRemovesOnly(a, l);
    if HasOffer(a, n) {
      var o :| o in a.offers && a.offers[o].node == Some(n);
      OfferOfLink(a, o);
      assert o in DisconnectLink(a, l).offers;
    }
  }

  lemma OfferOfLink(a: Acc, o: nat)
    requires Paired(a) && o in a.offers
    ensures a.offers[o].link in a.offerOf
  {}

  lemma AddOfferKeepsAttended(a: Acc, offerID: nat, l: LinkId, lab: nat, node: Option<Id>, n: Id)
    requires offerID !in a.offers && l !in a.state && Attended(a, n)
    ensures Attended(AddOffer(a, offerID, l, lab, node), n)
  {
    if HasOffer(a, n) {
      var o :| o in a.offers && a.offers[o].node == Some(n);
      assert o in AddOffer(a, offerID, l, lab, node).offers;
    }
  }

  class NodeAccessor {
    var acc: Acc
    /** Every link, label and offer ID in use is below this one. */
    var unused: nat

    ghost predicate Valid()
      reads this
    {
      && Ready(acc) && (forall l :: l in acc.state ==> l < unused) && (forall o :: o in acc.offers ==> o < unused)
      && (forall l :: l in acc.labels ==> acc.labels[l] < unused)
    }

    constructor ()
      ensures Valid() && acc == EMPTY
    {
      acc, unused := EMPTY, 0;
      new;
      EmptyReady();
    }

    /** Offers a new link; to a named node only if it is neither connected nor being connected. */
    method Connect(node: Option<Id>, created: bool) returns (ok: bool)
      requires Valid()
      modifies this
      ensures Valid()
      ensures ok <==> created && !(node.Some? && (node.value in old(acc).linkOf || HasOffer(old(acc), node.value)))
      ensures !ok ==> acc == old(acc)
      ensures ok ==> exists o, l, lab :: o !in old(acc).offers && l !in old(acc).state &&
                                         acc == AddOffer(old(acc), o, l, lab, node)
    {
      if node.Some? {
        var taken := AssignedNodeID(node.value);
        if taken {
          return false;
        }
      }
      if !created {
        return false;
      }
      var id := unused;
      AddOfferReady(acc, id, id, id, node);
      assert acc == old(acc);
      acc := AddOffer(acc, id, id, id, node);
      unused := unused + 1;
      ok := true;
    }

    method AssignedNodeID(node: Id) returns (r: bool)
      requires Valid()
      ensures r <==> node in acc.linkOf || HasOffer(acc, node)
    {
      if node in acc.linkOf {
        return true;
      }
      r := FindOffer(node);
    }

    /** The loop over the pending offers. */
    method FindOffer(node: Id) returns (found: bool)
      ensures found <==> HasOffer(acc, node)
    {
      var todo := acc.offers.Keys;
      while todo != {}
        invariant todo <= acc.offers.Keys
        invariant forall o :: o in acc.offers && acc.offers[o].node == Some(node) ==> o in todo
      {
        var o :| o in todo;
        if acc.offers[o].node == Some(node) {
          return true;
        }
        todo := todo - {o};
      }
      return false;
    }

    method Disconnect(l: LinkId)
      requires Valid()
      modifies this`acc
      ensures Valid() && acc == DisconnectLink(old(acc), l) && Disconnected(old(acc), l, acc)
    {
      hide Paired, LabelsDiffer, EventsKnown, DisconnectLink, Disconnected;
      DisconnectIs(acc, l);
      DisconnectReady(acc, l);
      DisconnectKeeps(acc, l);
      DisconnectRemovesOnly(acc, l);
      acc := DisconnectLink(acc, l);
    }

    /** A received offer: rejected if its ID is pending for somebody else, and otherwise given a link, if
        one can be created, with the label chosen by the other end. The maps stay in order exactly when
        the link is not created or the offer does not repeat one pending for the same node. */
    method RecvOffer(src: Id, offerID: nat, lab: nat, created: bool) returns (rejected: bool)
      requires Valid() && lab !in acc.labels.Values
      modifies this
      ensures rejected <==> offerID in old(acc).offers && old(acc).offers[offerID].node != Some(src)
      ensures rejected || !created ==> acc == old(acc)
      ensures !rejected && created ==>
                exists l :: l !in old(acc).state && acc == AddOffer(old(acc), offerID, l, lab, Some(src))
      ensures Valid() <==> !(created && offerID in old(acc).offers && old(acc).offers[offerID].node == Some(src))
    {
      hide Paired, LabelsDiffer, EventsKnown;
      rejected := offerID in acc.offers && acc.offers[offerID].node != Some(src);
      if rejected || !created {
        return;
      }
      var l := unused;
      assert l !in acc.state;
      SignalingOfferKeepsIff(acc, src, offerID, l, lab);
      if offerID !in acc.offers { AddOfferReady(acc, offerID, l, lab, Some(src)); }
      acc := AddOffer(acc, offerID, l, lab, Some(src));
      assert l !in old(acc).state && acc == AddOffer(old(acc), offerID, l, lab, Some(src));
      unused := unused + offerID + lab + 1;
    }

    method RecvAnswer(src: Id, offerID: nat, reject: bool)
      requires Valid()
      modifies this`acc
      ensures Valid() && acc == SignalingAnswer(old(acc), src, offerID, reject)
      ensures Answered(old(acc), src, offerID, reject, acc)
    {
      hide Paired, LabelsDiffer, EventsKnown, SignalingAnswer, Answered;
      AnswerIs(acc, src, offerID, reject);
      AnswerReady(acc, src, offerID, reject);
      AnswerStays(acc, src, offerID, reject);
      acc := SignalingAnswer(acc, src, offerID, reject);
    }

    static lemma AnswerStays(a: Acc, src: Id, offerID: nat, reject: bool)
      ensures SignalingAnswer(a, src, offerID, reject).state.Keys == a.state.Keys
      ensures SignalingAnswer(a, src, offerID, reject).labels == a.labels
      ensures SignalingAnswer(a, src, offerID, reject).offers.Keys <= a.offers.Keys
    {
      hide DisconnectLink;
      if offerID in a.offers {
        var o := a.offers[offerID];
        var a1 := a.(offers := a.offers[offerID := o.(node := Some(src))]);
        DisconnectShrinks(a1, o.link);
        OffersLeft(a1, DisconnectLink(a1, o.link));
      }
    }

    /** The transport reports that a link has changed its state; a connecting link can only come up
        when its peer is known. The handler is spawned. */
    method LinkStateChanges(l: LinkId, s: LinkState)
      requires Valid() && l in acc.state && (s == Online ==> PeerKnown(acc, l))
      modifies this`acc
      ensures Valid() && acc == TransportChange(old(acc), l, s)
      ensures acc.state == old(acc).state[l := s] && acc == old(acc).(state := acc.state, events := acc.events)
      ensures acc.events == old(acc).events + (if old(acc).state[l] != s then [Event(l, s)] else [])
    {
      hide Paired, LabelsDiffer, EventsKnown;
      TransportReady(acc, l, s);
      acc := TransportChange(acc, l, s);
    }

    /** Any spawned handler of a state change runs, and does not panic. */
    method NodeLinkChangeState(i: nat)
      requires Valid() && i < |acc.events|
      modifies this`acc
      ensures Valid() && SafeStep(old(acc), RunHandler(i)) && acc == Apply(old(acc), RunHandler(i))
      ensures old(acc).events[i].state == Online ==>
                var l, before := old(acc).events[i].link, Take(old(acc), i);
                if l in before.offerOf then exists p :: OffersTo(before, l, p) && Elected(before, l, p, acc)
                else acc == before
      ensures old(acc).events[i].state == Disabled ==> Disconnected(Take(old(acc), i), old(acc).events[i].link, acc)
      ensures old(acc).events[i].state == Connecting ==> acc == Take(old(acc), i)
    {
      hide Paired, LabelsDiffer, EventsKnown, Shrinks, HandleOnline, DisconnectLink, Elected, Disconnected;
      HandlerReady(acc, i);
      var l, s, a1 := acc.events[i].link, acc.events[i].state, Take(acc, i);
      TakeShrinks(acc, i);
      if s == Online {
        PeerOf(a1, l);
        OnlineShrinks(a1, l);
        OffersLeft(a1, HandleOnline(a1, l));
        acc := HandleOnline(a1, l);
      } else if s == Disabled {
        DisconnectShrinks(a1, l);
        DisconnectIs(a1, l);
        OffersLeft(a1, DisconnectLink(a1, l));
        acc := DisconnectLink(a1, l);
      } else {
        acc := a1;
      }
    }

    static lemma PeerOf(a: Acc, l: LinkId)
      requires Paired(a) && HandlerSafe(a, l)
      ensures l in a.offerOf ==> exists p :: OffersTo(a, l, p) && Elected(a, l, p, HandleOnline(a, l))
      ensures l !in a.offerOf ==> HandleOnline(a, l) == a
    {
      hide Paired, Elected;
      if l in a.offerOf {
        var p := a.offers[a.offerOf[l]].node.value;
        assert OffersTo(a, l, p);
        OnlineElects(a, l, p);
      }
    }

    static lemma OffersLeft(a: Acc, d: Acc)
      requires Shrinks(a, d)
      ensures d.offers.Keys <= a.offers.Keys && d.state.Keys == a.state.Keys && d.labels == a.labels
    {}

    /** Attends to one required node, with a new link exactly if it has neither a working link nor an offer. */
    method Require(node: Id, created: bool) returns (ok: bool, used: bool)
      requires Valid()
      modifies this
      ensures Valid()
      ensures ok <==> Attended(old(acc), node) || created
      ensures used <==> !Attended(old(acc), node) && created
      ensures ok ==> Attended(acc, node)
      ensures forall n :: n != node ==> (Attended(acc, n) <==> Attended(old(acc), n))
      ensures Stayed(old(acc), acc, {node})
    {
      hide Paired, AddOffer, DisconnectLink, HasOffer;
      used := false;
      if node in acc.linkOf {
        ConnectedLink(acc, node);
        if acc.state[acc.linkOf[node]] != Disabled {
          return true, false;
        }
        DropBroken(node);
      }
      ghost var a1 := acc;
      assert forall n :: n != node ==> (Attended(a1, n) <==> Attended(old(acc), n));
      assert Attended(old(acc), node) <==> HasOffer(a1, node);
      var pending := FindOffer(node);
      if pending {
        return true, false;
      }
      ok := Connect(Some(node), created);
      used := ok;
      if ok {
        ghost var o, l, lab :| o !in a1.offers && l !in a1.state && acc == AddOffer(a1, o, l, lab, Some(node));
        OfferAdded(a1, o, l, lab, node);
        LinksHaveStates(a1);
        forall n | n != node ensures Attended(acc, n) <==> Attended(a1, n) {
          OfferOfOther(a1, o, l, lab, node, n);
          SameAttended(a1, acc, n);
        }
      }
    }

    /** Drops the link of a node that is connected over a disabled one. */
    method DropBroken(node: Id)
      requires Valid() && Broken(acc, node)
      modifies this`acc
      ensures Valid() && acc.linkOf.Keys == old(acc).linkOf.Keys - {node}
      ensures acc.offers == old(acc).offers && acc.state == old(acc).state
      ensures forall n :: n in acc.linkOf ==> acc.linkOf[n] == old(acc).linkOf[n]
      ensures forall n :: n != node ==> (Attended(acc, n) <==> Attended(old(acc), n))
      ensures HasOffer(acc, node) <==> HasOffer(old(acc), node)
    {
      hide Paired, DisconnectLink, HasOffer, Attended;
      var l := acc.linkOf[node];
      ConnectedLink(acc, node);
      RemovedNode(acc, node);
      DropConnected(acc, l);
      Disconnect(l);
      forall n | n in acc.linkOf ensures acc.linkOf[n] == old(acc).linkOf[n] { OtherLinkStays(old(acc), node, n); }
      SameOffers(old(acc), acc, node);
      forall n | n != node ensures Attended(acc, n) <==> Attended(old(acc), n) {
        SameOffers(old(acc), acc, n);
        SameAttended(old(acc), acc, n);
      }
    }

    static lemma SameOffers(a: Acc, d: Acc, n: Id)
      requires d.offers == a.offers
      ensures HasOffer(d, n) <==> HasOffer(a, n)
    {}

    static lemma SameAttended(a: Acc, d: Acc, n: Id)
      requires n in d.linkOf <==> n in a.linkOf
      requires n in a.linkOf ==> d.linkOf[n] == a.linkOf[n]
      requires n in a.linkOf && a.linkOf[n] in a.state ==>
                 a.linkOf[n] in d.state && d.state[a.linkOf[n]] == a.state[a.linkOf[n]]
      requires n in a.linkOf && a.linkOf[n] in d.state ==> a.linkOf[n] in a.state
      requires HasOffer(d, n) <==> HasOffer(a, n)
      ensures Attended(d, n) <==> Attended(a, n)
    {}

    static lemma OfferOfOther(a: Acc, o: nat, l: LinkId, lab: nat, node: Id, n: Id)
      requires o !in a.offers && n != node
      ensures HasOffer(AddOffer(a, o, l, lab, Some(node)), n) <==> HasOffer(a, n)
    {
      var d := AddOffer(a, o, l, lab, Some(node));
      if HasOffer(a, n) {
        var k :| k in a.offers && a.offers[k].node == Some(n);
        assert k in d.offers && d.offers[k] == a.offers[k];
      }
      if HasOffer(d, n) {
        var k :| k in d.offers && d.offers[k].node == Some(n);
        assert k in a.offers && d.offers[k] == a.offers[k];
      }
    }

    static lemma ConnectedLink(a: Acc, node: Id)
      requires Paired(a) && node in a.linkOf
      ensures a.linkOf[node] in a.state && a.linkOf[node] !in a.offerOf && a.linkOf[node] in a.nodeOf
    {}

    static lemma LinksHaveStates(a: Acc)
      requires Paired(a)
      ensures forall n :: n in a.linkOf ==> a.linkOf[n] in a.state
    {}

    static lemma DistinctLinks(a: Acc, node: Id, n: Id)
      requires Paired(a) && node in a.linkOf && n != node
      ensures n in a.linkOf ==> a.linkOf[n] != a.linkOf[node]
    {}

    static lemma DisconnectedNode(a: Acc, node: Id)
      requires Paired(a) && node in a.linkOf
      ensures node !in DisconnectLink(a, a.linkOf[node]).linkOf
    {}

    static lemma OtherLinkStays(a: Acc, node: Id, n: Id)
      requires Paired(a) && node in a.linkOf && n in a.linkOf && n != node
      ensures Linked(DisconnectLink(a, a.linkOf[node]), n, a.linkOf[n])
    {
      DistinctLinks(a, node, n);
      DisconnectRemovesOnly(a, a.linkOf[node]);
    }

    static lemma OfferAdded(a: Acc, o: nat, l: LinkId, lab: nat, node: Id)
      ensures HasOffer(AddOffer(a, o, l, lab, Some(node)), node)
      ensures AddOffer(a, o, l, lab, Some(node)).linkOf == a.linkOf
      ensures l !in a.state ==>
                var d := AddOffer(a, o, l, lab, Some(node));
                forall k :: k in a.state ==> k in d.state && d.state[k] == a.state[k]
    {
      assert o in AddOffer(a, o, l, lab, Some(node)).offers;
    }

    /** From `a` to `d` no link changed its state or was added, and only broken ones of `nodes` went. */
    static ghost predicate Stayed(a: Acc, d: Acc, nodes: set<Id>) {
      && (forall n :: n in a.linkOf && !(n in nodes && Broken(a, n)) ==> Linked(d, n, a.linkOf[n]))
      && (forall n :: n in d.linkOf ==> Linked(a, n, d.linkOf[n]))
      && (forall l :: l in a.state ==> l in d.state && d.state[l] == a.state[l])
    }

    static lemma StayedSelf(a: Acc, nodes: set<Id>)
      ensures Stayed(a, a, nodes)
    {}

    static lemma StayedTwice(a: Acc, b: Acc, c: Acc, node: Id, nodes: set<Id>)
      requires Paired(a) && Stayed(a, b, nodes) && Stayed(b, c, {node}) && node in nodes
      ensures Stayed(a, c, nodes)
    {
      hide Paired;
      LinksHaveStates(a);
    }

    static lemma StayedLinks(a: Acc, d: Acc, nodes: set<Id>)
      requires Stayed(a, d, nodes)
      ensures forall n :: n in a.linkOf && !(n in nodes && Broken(a, n)) ==> Linked(d, n, a.linkOf[n])
    {}

    /** Required nodes with neither a working link nor an offer. */
    static ghost function Missing(a: Acc, required: set<Id>): set<Id> {
      set n | n in required && !Attended(a, n)
    }

    /** Succeeds exactly if a link can be created for each missing node, `capacity` being how many can be
        created. Then every connected node is required or kept, every required node is connected or has a
        pending offer, and the links of such nodes have stayed, except those of required nodes that were
        disabled. In any case no other working link and no offer of a required node goes. */
    method ConnectLinks(required: set<Id>, keep: set<Id>, capacity: nat) returns (ok: bool)
      requires Valid()
      modifies this
      ensures Valid()
      ensures ok <==> |Missing(old(acc), required)| <= capacity
      ensures ok ==> acc.linkOf.Keys <= required + keep
      ensures ok ==> forall n :: n in required ==> Attended(acc, n)
      ensures forall n :: n in required && Attended(old(acc), n) ==> Attended(acc, n)
      ensures forall n :: n in old(acc).linkOf && n in required + keep ==>
                (n in required && Broken(old(acc), n)) || Linked(acc, n, old(acc).linkOf[n])
    {
      hide Attended, Paired, LabelsDiffer, EventsKnown, Stayed, Missing;
      ok := RequireAll(required, capacity);
      StayedLinks(old(acc), acc, required);
      if ok {
        DropUnwanted(required, keep);
      }
    }

    /** The loop over the required nodes. */
    method RequireAll(required: set<Id>, capacity: nat) returns (ok: bool)
      requires Valid()
      modifies this
      ensures Valid()
      ensures ok <==> |Missing(old(acc), required)| <= capacity
      ensures ok ==> forall n :: n in required ==> Attended(acc, n)
      ensures forall n :: n in required && Attended(old(acc), n) ==> Attended(acc, n)
      ensures Stayed(old(acc), acc, required)
    {
      hide Attended, Paired, LabelsDiffer, EventsKnown, Stayed, Missing, Progress;
      ghost var missing := Missing(acc, required);
      NoProgress(acc, required);
      var todo := required;
      var left := capacity;
      while todo != {}
        invariant Valid() && todo <= required
        invariant left == capacity - |missing - todo|
        invariant Progress(old(acc), acc, required, todo)
      {
        var n :| n in todo;
        var used: bool;
        ghost var before := acc;
        OneMissing(old(acc), before, required, todo, n);
        ok, used := Require(n, left > 0);
        if !ok {
          StoppedProgress(old(acc), before, acc, required, todo, n);
          return;
        }
        OneProgress(old(acc), before, acc, required, todo, n);
        left := if used then left - 1 else left;
        todo := todo - {n};
      }
      AllProgress(old(acc), acc, required);
      ok := true;
    }

    /** Of the required nodes those not in `todo` are attended to, the others as they were. */
    static ghost predicate Progress(a: Acc, d: Acc, required: set<Id>, todo: set<Id>) {
      && (forall n :: n in todo ==> (Attended(d, n) <==> Attended(a, n)))
      && (forall n :: n in required - todo ==> Attended(d, n))
      && Stayed(a, d, required)
    }

    static lemma NoProgress(a: Acc, required: set<Id>)
      ensures Progress(a, a, required, required) && |Missing(a, required) - required| == 0
    {
      assert Missing(a, required) - required == {};
    }

    static lemma OneProgress(a: Acc, b: Acc, c: Acc, required: set<Id>, todo: set<Id>, n: Id)
      requires Paired(a) && Progress(a, b, required, todo) && n in todo && todo <= required && Stayed(b, c, {n})
      requires Attended(c, n) && forall m :: m != n ==> (Attended(c, m) <==> Attended(b, m))
      ensures Progress(a, c, required, todo - {n})
    {
      hide Attended, Paired, Stayed;
      StayedTwice(a, b, c, n, required);
    }

    static lemma StoppedProgress(a: Acc, b: Acc, c: Acc, required: set<Id>, todo: set<Id>, n: Id)
      requires Paired(a) && Progress(a, b, required, todo) && n in todo && todo <= required && Stayed(b, c, {n})
      requires !Attended(b, n) && forall m :: m != n ==> (Attended(c, m) <==> Attended(b, m))
      ensures Stayed(a, c, required) && forall m :: m in required && Attended(a, m) ==> Attended(c, m)
    {
      hide Attended, Paired, Stayed;
      StayedTwice(a, b, c, n, required);
    }

    static lemma AllProgress(a: Acc, d: Acc, required: set<Id>)
      requires Progress(a, d, required, {})
      ensures Stayed(a, d, required) && (forall n :: n in required ==> Attended(d, n))
      ensures Missing(a, required) - {} == Missing(a, required)
    {
      hide Attended, Stayed;
    }

    static lemma OneMissing(a: Acc, b: Acc, required: set<Id>, todo: set<Id>, n: Id)
      requires Progress(a, b, required, todo) && n in todo && todo <= required
      ensures |Missing(a, required) - (todo - {n})| ==
              |Missing(a, required) - todo| + if Attended(b, n) then 0 else 1
      ensures |Missing(a, required) - (todo - {n})| <= |Missing(a, required)|
    {
      hide Attended, Stayed;
      var missing := Missing(a, required);
      assert missing - (todo - {n}) == missing - todo + (if n in missing then {n} else {});
      SubsetCard(missing - (todo - {n}), missing);
    }

    method DropUnwanted(required: set<Id>, keep: set<Id>)
      requires Valid()
      requires forall n :: n in required ==> Attended(acc, n)
      modifies this`acc
      ensures Valid() && acc.linkOf.Keys <= required + keep
      ensures forall n :: n in required ==> Attended(acc, n)
      ensures forall n :: n in old(acc).linkOf && n in required + keep ==> Linked(acc, n, old(acc).linkOf[n])
    {
      hide Attended, Paired, DisconnectLink;
      var todo := acc.linkOf.Keys;
      while todo != {}
        invariant Valid() && todo <= acc.linkOf.Keys
        invariant acc.linkOf.Keys - todo <= required + keep
        invariant forall n :: n in required ==> Attended(acc, n)
        invariant forall n :: n in old(acc).linkOf && n in required + keep ==> Linked(acc, n, old(acc).linkOf[n])
      {
        var n :| n in todo;
        if n !in required && n !in keep {
          var l := acc.linkOf[n];
          ConnectedLink(acc, n);
          forall m | m in required ensures Attended(DisconnectLink(acc, l), m) {
            DistinctLinks(acc, n, m);
            DisconnectKeepsAttended(acc, l, m);
          }
          RemovedNode(acc, n);
          forall m | m in acc.linkOf && m != n ensures Linked(DisconnectLink(acc, l), m, acc.linkOf[m]) {
            OtherLinkStays(acc, n, m);
          }
          Disconnect(l);
        }
        todo := todo - {n};
      }
    }

    /** Drops connected links that have become disabled, and offers that have expired. */
    method HouseKeeping(expired: set<nat>)
      requires Valid()
      modifies this`acc
      ensures Valid()
      ensures forall l :: l in acc.nodeOf <==> l in old(acc).nodeOf && old(acc).state[l] != Disabled
      ensures forall o :: o in acc.offers <==> o in old(acc).offers && o !in expired
    {
      hide Paired, DisconnectLink;
      LinksHaveState(acc);
      var todo := acc.nodeOf.Keys;
      while todo != {}
        invariant Valid() && todo <= old(acc).nodeOf.Keys && acc.nodeOf.Keys <= old(acc).nodeOf.Keys
        invariant acc.state == old(acc).state
        invariant forall l :: l in acc.nodeOf && l !in todo ==> l in acc.state && acc.state[l] != Disabled
        invariant forall l :: l in old(acc).nodeOf && l in acc.state && acc.state[l] != Disabled ==> l in acc.nodeOf
        invariant acc.offers == old(acc).offers && acc.offerOf == old(acc).offerOf
      {
        var l :| l in todo;
        LinksHaveState(acc);
        if l in acc.nodeOf && acc.state[l] == Disabled {
          DropConnected(acc, l);
          Disconnect(l);
        }
        todo := todo - {l};
      }
      ghost var between := acc;
      var offers := acc.offers.Keys;
      while offers != {}
        invariant Valid() && acc.nodeOf == between.nodeOf
        invariant offers <= old(acc).offers.Keys && acc.offers.Keys <= old(acc).offers.Keys
        invariant forall o :: o in acc.offers && o !in offers ==> o !in expired
        invariant forall o :: o in old(acc).offers && o !in expired ==> o in acc.offers
      {
        var o :| o in offers;
        if o in acc.offers && o in expired {
          DropOffer(acc, o);
          Disconnect(acc.offers[o].link);
        }
        offers := offers - {o};
      }
    }

    static lemma LinksHaveState(a: Acc)
      requires Paired(a)
      ensures a.nodeOf.Keys <= a.state.Keys
    {}

    static lemma DropConnected(a: Acc, l: LinkId)
      requires Paired(a) && l in a.nodeOf && a.state[l] == Disabled
      ensures var d := DisconnectLink(a, l);
              d.nodeOf == a.nodeOf - {l} && d.offers == a.offers && d.offerOf == a.offerOf && d.state == a.state
    {}

    static lemma DropOffer(a: Acc, o: nat)
      requires Paired(a) && o in a.offers
      ensures var d := DisconnectLink(a, a.offers[o].link);
              d.nodeOf == a.nodeOf && d.offers == a.offers - {o}
    {
      hide Disable, ForgetNode, ForgetOffer;
      var l := a.offers[o].link;
      OfferLink(a, l);
      DisableKeeps(a, l);
      ForgetNodeKeeps(Disable(a, l), l);
      ForgetOfferKeeps(ForgetNode(Disable(a, l), l), l);
      DisconnectRemovesOnly(a, l);
    }

    static lemma RemovedNode(a: Acc, n: Id)
      requires Paired(a) && n in a.linkOf
      ensures DisconnectLink(a, a.linkOf[n]).linkOf.Keys == a.linkOf.Keys - {n}
    {
      DisconnectRemovesOnly(a, a.linkOf[n]);
      forall m | m in a.linkOf && m != n ensures a.linkOf[m] != a.linkOf[n] { DistinctLinks(a, n, m); }
    }
  }
}

# Colonio overlay network: a verified model

Colonio nodes form a peer-to-peer overlay on a ring of 2^128 node identifiers. A seed server registers
nodes and passes signals between them; nodes then keep WebRTC links to each other, exchange what they
know of the ring, forward packets greedily, split large packets over a link, retry requests, and spread
messages over an area. This project models that logic in Dafny and proves what it promises, over all
inputs, all interleavings and all runs.

`dafny verify dfyconfig.toml` checks the whole project.

## What is proved

- **Delivery** (`RouteTables`, `Delivery`, `Reconcile`, `Overlay`, `Exchange`). In any finite network whose
  nodes have heard their neighbours, iterating the next-step decision ends within `2 * |V|` hops. If every
  node's matched flag is set by a seed that knew all of them, packets stop at the unique ring predecessor of
  their destination and explicit packets reach their addressee exactly when it exists. The termination measure
  is twice the number of nodes nearer to the destination than anything the current node knows, plus how many
  hops away the nearest known node is; the clockwise distance of the current node would not do, since the
  first hop may lie beyond the destination. Over every run of connection changes and routing packets, nodes at
  rest have heard a neighbour exactly when they took a list from it after adding it, or it has nothing to
  tell.
- **Tables** (`TableUpdate`, `Routing1D`, `Connections`). The loops that rebuild the tables establish what the
  delivery theorem assumes, and every operation of a node keeps it.
- **Fragmentation** (`Fragments`, `NodeLink`). What a flush emits is rebuilt exactly, in order, if and only if
  every fragment count fits the 32-bit index; any received stream is explained by contiguous runs.
- **Links** (`Accessor`, `TieBreak`). Over all runs four maps stay two inverse pairs and no handler panics:
  the peer of a link that comes online is known and labels differ. Two peers that connect to each other at the
  same time both end with the link of the smaller label, whatever the order of events, within 22 steps.
- **Requests** (`Transferer`, `Handlers`, `Waiting`, `Messaging`). At most one callback and `retryCountMax +
  1` sends each, expiries spaced by the interval, exact conservation of requests; a counter for waiting that
  never goes negative and exactly when it releases; response channels that are never used after they are
  closed.
- **Spread** (`Spread`, `Flood`, `FloodNodes`). Every run of the nodes' own operations drains; at the end the
  message has been handled exactly once by exactly the nodes that next nodes inside the circle connect to the
  origin.
- **Plane index** (`Routing2D`). Over every run the index is the inverse of the live advertisements, and each
  entry is at the position given for it last.
- **Hop limit** (`Hops`), **signals** (`SeedSignals`), **identifiers** (`Bits`, `NodeIds`, `HexIds`, `Ring`).

## Reading the model

- Each method body under a mutex, and each spawned goroutine body, is one atomic step; only a messaging
  handler, which holds no mutex, sends and closes in two. Maps visited by `range` are visited in an arbitrary
  order, and the contracts hold for every order.
- Identifiers are first modelled as two 64-bit words with the bit operators defined bit by bit; `Ring.Bridge`
  then justifies using numbers below 2^128 and `Cw(a, b)`, the clockwise distance, everywhere else.
- Time, random identifiers, the success of calls to the seed, the success of a transport send and the creation
  of a link are parameters. Distances on the plane are real numbers from an unspecified function.
- Where the code panics, a method has a precondition. A step of a run that would panic may instead lead to any
  state at all (`Accessor.Next`, `TieBreak.Moves`, `Messaging.Next`), so the theorems over runs show that none
  does. What they assume of the surroundings is in the `Enabled` predicates: for links, that link names,
  labels and offer IDs are new where they are created, that an offer is not repeated while pending, and that
  the transport brings a link up only after the description of a known peer was given to it.
- Facts about the code that differ from what one would expect, each with its exact condition proved: a node
  that knows exactly one other node is never "matched" (`Reconcile.FullKnowledgeMatches`); a repeated offer
  for the same node breaks the link maps (`Accessor.SignalingOfferKeepsIff`); a hop limit of 2^32 - 1 limits
  nothing (`Hops.HopLimitHoldsIff`); a record without a position leaves the plane index incomplete
  (`Routing2D.ReceivedCompleteIff`); a matched flag outlives a failed call of the seed and is not asked for
  again (`Overlay.StaleFlagMisleads`); a routing packet that arrives before its sender was added as a
  neighbour is lost for good (`Exchange.QuietNeighbors`); a queued signal to the next node may end elsewhere
  (`SeedSignals.HandedToOwnerIff`); the test that keeps a connection because this node is its nearest holds of
  every neighbour, so routing on the ring gives up no connection (`Connections.NearestToPeerAgreesIff`). A
  request that is cancelled is never called back, so a post none of whose relays succeeds would wait for ever
  (`Waiting.PostWaits`); nothing in the repository cancels a request, and without that every post returns
  (`Waiting.UncancelledPostReturns`). The comment at node_accessor.go:514-517 says the larger label is
  retained; the code at 519-531 retains the smaller, and so does the model.

## Model

| member | source | states |
|---|---|---|
| NodeIds.AddMod | types/node_id.go:234-245 | the hand-made carries on two words add modulo 2^128 for all inputs |
| NodeIds.AddSubCorrect | types/node_id.go:173-200 | Add and Sub are the ring's addition and subtraction and undo each other |
| NodeIds.RingIsModular | types/node_id.go:173-200 | the ring's addition and subtraction are those of the integers modulo 2^128 |
| NodeIds.SmallerIsNumeric | types/node_id.go:148-171 | on ring positions the word-wise order is the numeric one, and Compare is 0 on equal positions only |
| NodeIds.SmallerIsStrictTotal | types/node_id.go:148-171 | Smaller is a strict total order on all identifiers including the reserved ones; Compare is antisymmetric |
| NodeIds.DistanceCorrect | types/node_id.go:202-232 | DistanceFrom is the shorter way round the ring |
| NodeIds.DistanceIsMetric | types/node_id.go:202-232 | distance is zero on equality only, symmetric, obeys the triangle inequality and is at most half the ring |
| HexIds.ParseOfPrint | types/node_id.go:113-126 | every ring position prints to a well-formed 32-digit string that parses back to it |
| HexIds.PrintOfParse | types/node_id.go:60-77 | every string that parses is what its identifier prints to, and the reserved names never parse |
| HexIds.NewNodeIDFromString | types/node_id.go:60-77 | the validating loop accepts exactly the 32-character lower-case hexadecimal strings and yields the identifier they denote |
| Ring.Bridge | types/node_id.go:139-232 | read as numbers, Sub is clockwise distance, DistanceFrom ring distance, Smaller numeric order and Equal equality |
| Ring.KeyRoundTrip | types/node_id.go:113-126 | the key of a node in a routing packet denotes that node |
| Ring.ParseKeyRoundTrip | types/node_id.go:60-77 | a key that denotes a node is that node's key |
| Ring.SortNodeIDs | types/node_id.go:283-287 | the result is strictly ascending and holds exactly the given identifiers |
| RouteTables.LevelIsFirstRange | node/internal/network/routing/routing_1d.go:378-386 | the level names the first of the eight ranges above the clockwise distance, and is -1 exactly beyond the last |
| RouteTables.RangesAreQuarters | node/internal/network/routing/routing_1d.go:37-46 | range i ends below 2^(113 + 2i) - 1 |
| RouteTables.NextListHeads | node/internal/network/routing/routing_1d.go:441-490 | the heads of the two lists are the ring successor and predecessor among the known nodes; neither list is empty once something is known |
| RouteTables.NextListSizes | node/internal/network/routing/routing_1d.go:441-490 | two nodes on either side from four known nodes on, one before and the rest behind with two or three, and a single known node on both |
| RouteTables.NextListsUnique | node/internal/network/routing/routing_1d.go:441-490 | both lists are determined by the known nodes |
| RouteTables.BetweenIsArc | node/internal/network/routing/routing_1d.go:558-570 | the half-open test with wrapping is a comparison of clockwise distances |
| RouteTables.CandidateIsRingPredecessor | node/internal/network/routing/routing_1d.go:182-196 | the linear scan selects the entry with the least clockwise distance to the destination, wrapping included |
| RouteTables.TablesAreUsable | node/internal/network/routing/routing_1d.go:158-196 | tables that agree with a view never make the decision panic, and the lists are empty only without neighbours |
| RouteTables.ForwardTowardsNearest | node/internal/network/routing/routing_1d.go:146-197 | a forwarded packet goes to a permitted first hop of the nearest known node before the destination, which is not the local node |
| RouteTables.AcceptedNearby | node/internal/network/routing/routing_1d.go:158-174 | a node keeps a non-explicit packet only if it knows nobody or owns the arc up to its successor that holds the destination |
| RouteTables.StepShape | node/internal/network/routing/routing_1d.go:146-197 | only explicit packets are dropped, only in a gap next to the node, and explicit ones are accepted by the addressee alone |
| RouteTables.StepDecides | node/internal/network/routing/routing_1d.go:146-197 | the whole decision in ring terms: exactly packets to the neighbourhood are multicast, packets to this node accepted, explicit ones to others dropped exactly in a gap, other ones accepted exactly before the successor, and all else goes to a first hop of the nearest known node |
| RouteTables.SomeTablesFit | node/internal/network/routing/routing_1d.go:388-490 | every view has tables that agree with it |
| Delivery.HopDecreases | node/internal/network/routing/routing_1d.go:146-197 | every hop stays in the network and decreases the measure |
| Delivery.Deliver | node/internal/network/routing/routing_1d.go:146-197 | the run of a packet ends, within its measure, at a node that accepts or drops it |
| Delivery.NearbyDelivery | node/internal/network/routing/routing_1d.go:146-197 | a non-explicit packet is accepted within twice as many hops as there are nodes by a node that is alone or owns the arc holding the destination |
| Delivery.NearbyDeliveryIsExact | node/internal/network/routing/routing_1d.go:146-197 | with true ring neighbours everywhere that node is the unique ring predecessor of the destination |
| Delivery.ExplicitDelivery | node/internal/network/routing/routing_1d.go:146-197 | with true ring neighbours an explicit packet is accepted if and only if its addressee exists, and by the addressee |
| Delivery.EveryTopologyCanRest | node/internal/network/routing/routing_1d.go:388-490 | for every topology there is a network the delivery theorems apply to |
| TableUpdate.CollectFirstHops | node/internal/network/routing/routing_1d.go:388-411 | whatever the order of visits, each known node is mapped to itself if connected and otherwise to an advertising neighbour at minimal ring distance |
| TableUpdate.UpdateEntries | node/internal/network/routing/routing_1d.go:413-439 | entries are sorted, cover exactly the mapped nodes, keep the score of surviving nodes and start at 0 for new ones |
| TableUpdate.UpdateRouteInfos | node/internal/network/routing/routing_1d.go:388-439 | the rebuilt table agrees with the view and keeps the scores |
| TableUpdate.UpdateNextNodeIDs | node/internal/network/routing/routing_1d.go:441-490 | the two lists are the two ends of the clockwise order of the known nodes |
| Routing1D.AdvertisedByKey | node/internal/network/routing/routing_1d.go:221-243 | looking a node up by its printed key and parsing the packet's keys agree |
| Routing1D.KeptNonNegative | node/internal/network/routing/routing_1d.go:420-434 | scores that are kept stay non-negative |
| Routing1D.LostExactly | node/internal/network/routing/routing_1d.go:497-504 | the nodes reported as lost are exactly the former next nodes that are not connected, as often as listed |
| Routing1D.ScoredAt | node/internal/network/routing/routing_1d.go:182-196 | exactly the entry of the nearest known node scores, and only when the scan reaches it |
| Routing1D.Node.constructor | node/internal/network/routing/routing_1d.go:84-90 | a new node knows nobody and its tables agree with that |
| Routing1D.Node.Rebuild | node/internal/network/routing/routing_1d.go:441-512 | after a rebuild the tables agree with the infos, scores are kept, and if the seed answered, the flag is its check of the new lists against the nodes registered there; a failed call keeps the old flag; the former next nodes that are lost are reported |
| Routing1D.Node.UpdateNextNodeMatched | node/internal/network/routing/routing_1d.go:492-512 | the flag becomes the answer of the seed about the current lists exactly when the call succeeds |
| Routing1D.Node.SubRoutine | node/internal/network/routing/routing_1d.go:92-99 | the seed is asked again only while the flag is false |
| Routing1D.Node.UpdateNodeConnections | node/internal/network/routing/routing_1d.go:111-144 | exactly the connected nodes remain, known ones with all they had, the tables agree again, and the requested action is stated |
| Routing1D.Node.RecvRoutingPacket | node/internal/network/routing/routing_1d.go:208-256 | the source's set becomes what it advertises without the local node, others are untouched and the tables agree again; an unparsable key is an error that leaves the tables as they were |
| Routing1D.Node.GetNextStep | node/internal/network/routing/routing_1d.go:146-197 | in every consistent state: multicast exactly to the neighbourhood, accepted when addressed to this node, dropped and accepted exactly as the gaps next to it say, otherwise forwarded to a neighbour on the way to the nearest known node; one score grows at most, and nothing panics |
| Routing1D.Node.SetupRoutingPacket | node/internal/network/routing/routing_1d.go:258-273 | the packet lists exactly the neighbours, under keys that parse, with their scores |
| Routing1D.Node.CountRecvPacket | node/internal/network/routing/routing_1d.go:199-206 | the sender's score grows by one and consistency is kept |
| Connections.Classify | node/internal/network/routing/routing_1d.go:298-334 | neighbours are split into those beyond all levels and those kept for their own sake; no candidate is left among them |
| Connections.NearestToPeerAlways | node/internal/network/routing/routing_1d.go:314-332 | the test whether this node is the nearest of its neighbour holds of every neighbour |
| Connections.NearestToPeerAgreesIff | node/internal/network/routing/routing_1d.go:314-332 | so it agrees with its purpose if and only if this node is next to the neighbour on the ring; a neighbour for which it does not |
| Connections.AddRoutes | node/internal/network/routing/routing_1d.go:336-348 | the known nodes within the levels that are neither neighbours nor required become candidates rated by their route score |
| Connections.Best | node/internal/network/routing/routing_1d.go:361-368 | scores being non-negative, a candidate with the highest score is found |
| Connections.PickLevel | node/internal/network/routing/routing_1d.go:350-372 | with those kept the picks reach two and no more, or all candidates are picked, and nobody left scores more than a pick |
| Connections.GetConnections | node/internal/network/routing/routing_1d.go:275-375 | all next nodes and only known nodes are required; no neighbour is given up; at each level two nodes or all known ones are required; a node required by score only has no better scored one of its level left out; neighbours of level -1 are kept |
| Reconcile.RangeIsArc | seed/gateway/simple.go:139-155 | the range query with wrapping is a closed clockwise arc |
| Reconcile.GetNodesByRange | seed/gateway/simple.go:122-158 | exactly the registered nodes of the range are found |
| Reconcile.ReconcileNextNodes | seed/controller/controller.go:233-274 | the loops answer true exactly when the report is, without repetition, the set of other registered nodes between its ends |
| Reconcile.MatchedImpliesTrueNeighbors | seed/controller/controller.go:240-273 | a "matched" answer proves the list heads to be the ring neighbours among all registered nodes, unless there is nobody else |
| Reconcile.FullKnowledgeMatches | seed/controller/controller.go:240-273 | a node that knows exactly the other registered nodes is matched if and only if there is not exactly one of them |
| Reconcile.MatchedNetworkDelivers | seed/controller/controller.go:233-274 | once everybody is matched, near and explicit delivery are exact within twice as many hops as there are nodes |
| Overlay.ExchangeRests | node/internal/network/routing/routing.go:196-233 | consistent nodes that have received their neighbours' packets form a network at rest |
| Overlay.OverlayDelivers | node/internal/network/routing/routing.go:121-123 | from the nodes' own state, with flags set by a seed that knew all nodes, to exact delivery of every packet |
| Overlay.StaleFlagMisleads | node/internal/network/routing/routing_1d.go:492-512 | a concrete case in which the flag is true after a failed call although the lists do not match |
| Exchange.RunKeeps | node/internal/network/routing/routing.go:145-233 | over every run of connection changes, broadcasts and arrivals, a neighbour's list is empty before one was taken from it, and the youngest list sent is the present one unless the sender is due to send |
| Exchange.QuietNeighbors | node/internal/network/routing/routing.go:145-233 | in every quiet state of every run a node has its neighbour's present list if and only if it has taken one since it added the neighbour, or the neighbour has no other |
| Exchange.EarlyListIsLost | node/internal/network/routing/routing_1d.go:216-219 | a list that arrives before its sender has been added is lost and not sent again |
| Exchange.QuietExchanged | node/internal/network/routing/routing.go:145-233 | in every quiet state of every run consistent nodes form an exchanged network if and only if everybody is informed about its neighbours |
| Fragments.PiecesRoundTrip | node/internal/network/node_accessor/node_link.go:268-304 | the fragments of a split packet, received on top of its first ones, complete exactly that packet |
| Fragments.StreamRoundTrip | node/internal/network/node_accessor/node_link.go:264-325 | a queue is rebuilt in order with an empty stack and no disconnect if every count fits 32 bits, and otherwise the receiver disconnects |
| Fragments.HeadlessBreaks | node/internal/network/node_accessor/node_link.go:490-503 | a fragment with index 0 and no head ends the connection wherever it comes |
| Fragments.ReceivedRuns | node/internal/network/node_accessor/node_link.go:467-545 | whatever arrives, each delivered packet is a contiguous run with one id, indices counting down to 0 and a head on the last only |
| NodeLink.SplitPacket | node/internal/network/node_accessor/node_link.go:267-304 | the inner loop emits exactly the specified fragments, each non-final one filling its container, or stops at a failed send |
| NodeLink.Emit | node/internal/network/node_accessor/node_link.go:264-325 | all containers are within the size limit and their fragments are the specified stream, or a prefix of it after a failed send |
| NodeLink.FlushDelivers | node/internal/network/node_accessor/node_link.go:256-325 | one flush delivers the whole queue, or after a failed send a prefix of it, and never disconnects the receiver |
| NodeLink.Link.SendPacket | node/internal/network/node_accessor/node_link.go:202-241 | the packet is queued, and flushed exactly without buffering or when more than a container is queued |
| NodeLink.Link.Flush | node/internal/network/node_accessor/node_link.go:243-325 | a connecting link keeps its queue, a disabled one drops it, an online one sends it all or becomes disabled |
| NodeLink.Link.RecvData | node/internal/network/node_accessor/node_link.go:464-545 | the loop over a container has the effect of its fragments one by one up to a disconnect |
| NodeLink.Link.RecvOne | node/internal/network/node_accessor/node_link.go:468-545 | one fragment has the specified effect on stack, deliveries and state |
| NodeLink.Link.CheckRun | node/internal/network/node_accessor/node_link.go:490-509 | the joined contents exactly when indices count down to 0 and only the last fragment has a head |
| Accessor.DisconnectKeeps | node/internal/network/node_accessor/node_accessor.go:404-424 | disconnecting keeps both inverse pairs and removes the link from both |
| Accessor.DisconnectRemovesOnly | node/internal/network/node_accessor/node_accessor.go:404-424 | entries of other links and offers are untouched |
| Accessor.DisconnectIs | node/internal/network/node_accessor/node_accessor.go:404-424 | disconnecting disables that link, takes it from all maps and spawns its handler unless it was disabled, and does nothing else |
| Accessor.AddOfferIs | node/internal/network/node_accessor/node_accessor.go:356-370 | a new offer adds one connecting link under its number, for its peer, and nothing else |
| Accessor.SignalingOfferKeepsIff | node/internal/network/node_accessor/node_accessor.go:221-245 | a received offer keeps the pairs if and only if it does not repeat one pending for the same node |
| Accessor.SignalingAnswerKeeps | node/internal/network/node_accessor/node_accessor.go:268-287 | an answer keeps the pairs |
| Accessor.AnswerIs | node/internal/network/node_accessor/node_accessor.go:268-287 | an accepted answer leaves the offer pending on its link for the sender, a rejection closes the link, an unknown number or another sender changes nothing |
| Accessor.HandlerSafeWhenReady | node/internal/network/node_accessor/node_accessor.go:503-538 | with the pairs in order, labels that differ and the peer known, the online handler neither dereferences nil nor panics |
| Accessor.HandleOnlineKeeps | node/internal/network/node_accessor/node_accessor.go:503-538 | the online handler keeps the pairs through all its branches |
| Accessor.OnlineElects | node/internal/network/node_accessor/node_accessor.go:503-538 | a link that has come up becomes the link to its peer exactly when the peer had none, one that was not online or one with a larger label; the other is closed and nothing else changes |
| Accessor.OnlineConnects | node/internal/network/node_accessor/node_accessor.go:503-538 | the peer of a link that is online when its handler runs is connected over an online link |
| Accessor.RunKeepsPairs | node/internal/network/node_accessor/node_accessor.go:172-544 | in every state of every run of signalling, transport, handler and disconnect steps the four maps are inverse pairs over disjoint links, labels differ, every link with a pending online handler knows its peer, and no step panics |
| Accessor.NodeAccessor.Connect | node/internal/network/node_accessor/node_accessor.go:331-402 | a new offer under fresh identifiers, refused for a node that is connected or being connected |
| Accessor.NodeAccessor.Disconnect | node/internal/network/node_accessor/node_accessor.go:404-424 | that link and nothing else is closed, and the state stays valid |
| Accessor.NodeAccessor.RecvOffer | node/internal/network/node_accessor/node_accessor.go:221-245 | rejection exactly when the ID is pending for another node, no change when the link cannot be created, and exactly when the state stays valid |
| Accessor.NodeAccessor.RecvAnswer | node/internal/network/node_accessor/node_accessor.go:268-287 | the effect of an accepted, rejected, unknown or foreign answer as in AnswerIs, keeping the state valid |
| Accessor.NodeAccessor.NodeLinkChangeState | node/internal/network/node_accessor/node_accessor.go:503-544 | any pending handler runs without a panic: an online link is elected or closed as in OnlineElects, a disabled one is closed, and the state stays valid |
| Accessor.NodeAccessor.LinkStateChanges | node/internal/network/node_accessor/node_link.go:419-446 | a reported change of state spawns the handler and keeps the state valid |
| Accessor.NodeAccessor.ConnectLinks | node/internal/network/node_accessor/node_accessor.go:172-219 | success exactly if a link can be created for every required node without working link or offer; then connected nodes are required or kept, and required ones are connected or have an offer; working links of such nodes have stayed in any case |
| Accessor.NodeAccessor.HouseKeeping | node/internal/network/node_accessor/node_accessor.go:426-440 | exactly the disabled connected links and the expired offers are dropped |
| TieBreak.RunKeeps | node/internal/network/node_accessor/node_accessor.go:221-544 | over every interleaving of offers, answers, transport changes and handlers at both peers no handler panics, the link with the smaller label is never closed and every link is where its state says, or its handler is still to run |
| TieBreak.BothKeepSmallerLabel | node/internal/network/node_accessor/node_accessor.go:221-544 | when nothing is left to happen both peers are connected over the link with the smaller label and the other is gone from both |
| TieBreak.RunsAreShort | node/internal/network/node_accessor/node_accessor.go:221-544 | no run has more than 22 moves |
| Transferer.RunKeeps | node/internal/network/transferer/transferer.go:136-276 | the invariant tying records to what has been sent, found expired and called back holds in every state of every run |
| Transferer.RequestHistory | node/internal/network/transferer/transferer.go:136-276 | over every run a request has at most one callback and max + 1 sends, times out exactly at its expiry number max + 1, and issued requests are outstanding, answered, timed out or cancelled |
| Transferer.ExpiriesAreSpaced | node/internal/network/transferer/transferer.go:136-205 | over every run a request is found expired no sooner than an interval after it was issued or last found so, and times out no sooner than max + 1 intervals after it was issued |
| Transferer.Requests.Issue | node/internal/network/transferer/transferer.go:174-205 | a request step; the object stays in a state that some run reaches, so RequestHistory holds of it |
| Transferer.Requests.Receive | node/internal/network/transferer/transferer.go:255-276 | a response step; the handler is called exactly when there is a record, and the state stays reachable |
| Transferer.Requests.CancelRequest | node/internal/network/transferer/transferer.go:249-253 | the record is deleted without a call of its handler, and the state stays reachable |
| Transferer.Requests.SubRoutine | node/internal/network/transferer/transferer.go:136-168 | the pass is a sequence of expiry steps, one for each record whose interval is over and no other, after which each such record is retried or gone |
| Transferer.ExpiriesReachable | node/internal/network/transferer/transferer.go:136-168 | a sequence of expiry steps leads from states of runs to states of runs |
| Handlers.HappenKeeps | node/internal/network/transferer/transferer.go:136-276 | every step keeps: the handlers spawned and run are those of the watched requests called back, each once |
| Handlers.RanIff | node/internal/network/transferer/transferer.go:249-276 | of a closed request with no handler waiting the handler has run if and only if it was not cancelled |
| Waiting.WaitAny.Wait | node/internal/wait_any/wait_any.go:33-65 | however reports come in, Wait returns at the first success or once all announced reports are in, no sooner and no later, with whether one was a success |
| Waiting.RunKeeps | node/internal/spread/spread.go:167-190 | over every run the counter is the number of relays whose handler has not run and the result whether one of the others reported a success |
| Waiting.PostWaits | node/internal/spread/spread.go:167-190 | over every run Done finds a positive counter, a failure is returned only after every relay's handler has run without success, and when all relays are closed and their handlers have run, Wait is released if and only if one succeeded or none was cancelled |
| Waiting.UncancelledPostReturns | node/internal/spread/spread.go:167-190 | in runs without cancellation Wait is released once all relays are closed and their handlers have run |
| Messaging.ChannelsAreSafe | node/internal/messaging/messaging.go:110-131 | over every run no response channel is sent to or closed after it is closed, sent to while full, or read after it is closed and empty |
| Messaging.PostReturns | node/internal/messaging/messaging.go:150-177 | over every run a post returns what its handler was called with, the timeout error if the request timed out, and once the request is closed and its handler has run, it can return if and only if the request was not cancelled |
| Messaging.ResponseWriter.Write | node/internal/messaging/messaging.go:79-97 | whatever is written, exactly one response is sent, the first; later ones are refused |
| Spread.EmitAll | node/internal/spread/spread.go:428-443 | one packet to each target and no other, in any order |
| Spread.Node.Post | node/internal/spread/spread.go:161-209 | from inside the circle the message is cached and goes to the next nodes inside, or is relayed to them when somebody must receive it; from outside it is relayed towards the centre, or fails exactly when somebody must receive it and there is no such node |
| Spread.Node.RecvSpread | node/internal/spread/spread.go:371-415 | handled exactly the first time inside the circle, then cached and forwarded to the next nodes inside but the sender; announced exactly when larger than the knock size |
| Spread.Node.RecvRelay | node/internal/spread/spread.go:294-358 | handled the first time inside the circle, passed on the first time outside if there is a node to pass to, ignored afterwards; unless passed on or one-way it is answered with whether it was handled |
| Spread.KnockPredicts | node/internal/spread/spread.go:270-292 | a knock is accepted if and only if the message that may follow would be handled |
| FloodNodes.HandledIsDelivered | node/internal/spread/spread.go:270-465 | what a node does with a message, relay, knock or knock response is the delivery of that packet in the flood, and changes nothing but its cache |
| FloodNodes.NetRunIsFlood | node/internal/spread/spread.go:161-465 | every run of the nodes' operations from a post inside the circle is a run of the flood |
| FloodNodes.NodesFlood | node/internal/spread/spread.go:161-465 | over every run of the nodes nobody handles the message twice, outside or at the origin, the steps are bounded, and once nothing is in flight the handlers are exactly the connected nodes |
| Flood.RunInvariant | node/internal/spread/spread.go:371-444 | in every reachable state all packets travel between a node that has the message and a next node of it inside, and every such next node has the message or is about to be asked |
| Flood.FloodIsSafe | node/internal/spread/spread.go:371-444 | in every reachable state nobody has handled the message twice, outside the circle or at the origin |
| Flood.FloodIsComplete | node/internal/spread/spread.go:371-444 | once nothing is in flight the nodes that handled it are exactly those connected to the origin through next nodes inside |
| Flood.FloodDrains | node/internal/spread/spread.go:371-465 | a run has at most three steps per next-node link, and a state with packets in flight always has a step |
| Routing2D.RestrictKeeps | node/internal/network/routing/routing_2d.go:58-80 | a connection update keeps the index closed, sound and complete with respect to the remaining sources |
| Routing2D.ReceivedAt | node/internal/network/routing/routing_2d.go:157-229 | for every node, whether it is in the index after a packet and with which roots |
| Routing2D.ReceivedPosition | node/internal/network/routing/routing_2d.go:163-212 | after a packet an entry is at the position given for it: the source's own, or the listed one unless it is a direct neighbour; otherwise where it was |
| Routing2D.ReceivedKeeps | node/internal/network/routing/routing_2d.go:157-235 | a routing packet keeps the index closed and its roots among the latest advertisements |
| Routing2D.ReceivedCompleteIff | node/internal/network/routing/routing_2d.go:178-229 | it keeps the index complete if and only if every listed node that was unknown comes with a position |
| Routing2D.ReceivedChanges | node/internal/network/routing/routing_2d.go:157-230 | the packet changes the index if and only if one of its stages does: none undoes another |
| Routing2D.RunKeepsIndex | node/internal/network/routing/routing_2d.go:58-235 | over every run the index is closed and sound, and with positions in all records the exact inverse of the live sources' latest advertisements |
| Routing2D.RunPositions | node/internal/network/routing/routing_2d.go:58-235 | over every run each entry is at the position given for it last, a direct neighbour at the one in its own latest packet |
| Routing2D.Node.UpdateNodeConnections | node/internal/network/routing/routing_2d.go:58-80 | the nested loops restrict the roots to the connections and drop entries left without, and action is required exactly when an entry went and the plane neighbours changed |
| Routing2D.Node.RecvRoutingPacket | node/internal/network/routing/routing_2d.go:157-235 | the loops have the specified effect whatever the order of visits, each entry is at the position given for it or where it was, and action is required exactly when the index and the plane neighbours changed |
| Routing2D.Node.GetNextStep | node/internal/network/routing/routing_2d.go:82-123 | local exactly when no known node is closer; otherwise, below the largest float, a direct neighbour: the nearest known node or a nearest of those that advertise it; no lookup fails |
| Routing2D.Node.GetNextNodePositions | node/internal/network/routing/routing_2d.go:125-141 | exactly the direct neighbours with their positions |
| Hops.Counter.CheckHopCount | node/internal/network/network.go:235-243 | the counter is the number of receivers that accepted the packet modulo 2^32, and below an all-ones limit a packet is accepted exactly while that number is within the limit |
| Hops.ReplyTo | node/internal/network/transferer/transferer.go:219-247 | exactly when a packet that is not one-way is answered by its handler or received by nobody there is one reply, a fresh one-way packet |
| Hops.HopLimitHoldsIff | node/internal/network/network.go:235-243 | however long a packet is passed on, at most limit + 1 receivers accept it, if and only if the 32-bit limit is not all ones |
| Hops.TransmissionsBound | node/internal/network/network.go:174-264 | whatever the tables say, one injected packet and the reply it provokes cause a bounded number of transmissions |
| SeedSignals.GetNextByMap | seed/misc/map_helper.go:23-48 | the key other than the given one at the least clockwise distance, if there is one |
| SeedSignals.SuccessorUnique | seed/misc/map_helper.go:23-48 | there is only one such key |
| SeedSignals.SuccessorInSubset | seed/controller/controller.go:129-137 | a successor among all nodes that subscribes is the successor among the subscribers |
| SeedSignals.Seed.AssignNode | seed/gateway/simple.go:70-93 | a fresh node is registered without subscription or queued signals |
| SeedSignals.Seed.Subscribe | seed/controller/controller.go:304-323 | a channel is opened exactly for a registered node without one, keeping channels and subscriptions equal |
| SeedSignals.Seed.HandOver | seed/gateway/simple.go:212-239 | after a subscription each queued signal goes, in order, to its target among the nodes that subscribe now, and the queue is empty |
| SeedSignals.HandedToOwnerIff | seed/gateway/simple.go:221-231 | a queued signal reaches the owner of the queue if and only if no node registered since and subscribing comes before it |
| SeedSignals.Seed.Unsubscribe | seed/controller/controller.go:325-333 | both the subscription and the channel go |
| SeedSignals.Seed.UnassignNode | seed/gateway/simple.go:95-101 | the node goes together with its channel |
| SeedSignals.Seed.HandleSignal | seed/controller/controller.go:119-142 | the signal enters the channel of its target among the subscribers, or there is no target |
| SeedSignals.Seed.PublishSignal | seed/gateway/simple.go:256-290 | a signal reaches its target among all registered nodes: its channel and no other when it subscribes, its queue otherwise |

## Left out

- WebRTC links, SDP and ICE content, and the HTTP server and client of the seed: foreign calls and I/O. A link is its state changes and a send that succeeds or fails.
- Protobuf marshalling: packet content is a sequence of bytes, and content that fails to unmarshal is not modelled.
- Mutex order, data races, tickers and the wall clock: steps are atomic and time is a parameter.
- Delaunay triangulation and the choice of plane neighbours made from it: a third-party library over floating point.
- Floating point: plane distances are real numbers, compared with a limit that stands for the largest float.
- Connections.GetConnections: does not model normalizeScore, which scales scores by a floating-point rate before they are compared.
- Routing1D.Node.SetupRoutingPacket: lists the one-dimensional scores only, without the plane positions merged into the same records and without normalizeScore.
- Routing1D.Node.RecvRoutingPacket: after an unparsable key the tables may lag behind the neighbour sets. A later well-formed packet with the same list changes nothing and so rebuilds nothing: the lag lasts until some list or the connections change. Later operations are specified for consistent states.
- Routing2D.Node.RecvRoutingPacket: keys are taken as parsed and the packet as carrying the source's position; an unparsable key would end the code half way.
- Flood.FloodIsComplete: next-node positions are the nodes' actual positions, packets are neither lost nor repeated, and cached messages do not expire; answers to relays are the subject of Waiting.
- FloodNodes.NodesFlood: follows posts from inside the circle; for those from outside, and for relays passed on, only the sending node's part is specified. A passed-on packet keeps its destination, so its delivery cannot be claimed from this code.
- SeedSignals.Seed.HandOver: channels have room for every signal; the source's hold a hundred and then block. A node that is unregistered before the hand-over runs is not followed.
- ICE exchange: a connecting link is modelled by its peer and its link; collected ICE candidates and creation times are not kept, and expiry is a parameter.
- Keepalive requests and lifespans at the seed, cookie sessions, request validation, logging, observation, the simulator and the user-facing options: thin or unrelated to the properties.
- Exchange.RunKeeps: the set of nodes is fixed, lists between two nodes arrive in the order sent, and a node's links are its current neighbours when it sends.
- Routing2D.Node.GetNextStep: distances are real numbers, so no distance is infinite or NaN.
- Messaging: the table of named message handlers, and the finalizer that writes an empty response, other than as one more write.

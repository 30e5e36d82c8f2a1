# EAMRP: a verified model

EAMRP is an on-demand multipath distance-vector routing protocol for mobile ad hoc networks. A node that needs a
route floods a request (RREQ); the destination, or a node that already has a fresh route, answers with a reply
(RREP); neighbours greet each other (HELLO); and broken routes are reported (RERR). Every route entry keeps several
alternate paths, an advertised hop count and a sequence number. This project models the protocol in two linked
layers and proves what it is for: routes over all alternate paths are loop-free and node-disjoint, advertisements
and sequence numbers obey their rules over whole runs, floods and error cascades end, and no packet is lost
unaccounted for.

## The two layers

**The protocol as steps.** `Routes.dfy` (one route entry), `Buffers.dfy` (the packet buffer) and `Nodes.dfy` (one
node) give every handler of `eamrp.cc` as a function from the node's state to its next state. `Network.dfy` puts
nodes together: messages in the air may be lost, duplicated, delayed and reordered, broadcasts may reach any nodes,
unicast messages reach only their next hop, and the clock never goes back. A run starts from fresh nodes, and each
step lets one node handle one event: a message, a data packet, one of the four timers, or a change the link layer
makes to the interface queue. The theorems are in

| file | main result |
|---|---|
| `NodeInvariant.dfy`, `NodeSteps.dfy`, `Network.dfy` | every handler keeps the node invariant, every run keeps the network invariant |
| `LoopFreedom.dfy` | loop freedom, node-disjointness, frozen advertisements, number ownership and monotonicity |
| `Waiting.dfy` | no buffered packet has a usable route |
| `Learning.dfy`, `Discovery.dfy` | which offered paths a node takes up; what it does with a request, a reply or a HELLO, and where a reply goes on its way back, exactly |
| `Forwarding.dfy`, `DataPackets.dfy` | what becomes of a data packet, exactly; packets that wait leave when their route comes up |
| `Asking.dfy` | what sendRequest sends, exactly; no two requests of a node can be mistaken for each other |
| `Flood.dfy`, `Outbox.dfy` | a route discovery ends |
| `OncePerRequest.dfy` | a cached request is passed on and answered at most once |
| `Errors.dfy` | link failure and recvError are exact; error cascades end |
| `Neighbours.dfy`, `PurgeExample.dfy` | neighbour purge and salvage are exact; when a purge sends a packet to a neighbour that it removes, and a run that leads to one |
| `RequestBudget.dfy`, `RequestRuns.dfy` | how many requests go out while a route stays down, and when |
| `Expiry.dfy`, `RoutePurge.dfy` | rt_purge is exact: for the routes, for the packets that wait, and in what it asks for |
| `BufferLaws.dfy`, `BufferRuns.dfy` | which packet comes out, conservation in the buffer, and scanning it refines dropping its head |
| `Conservation.dfy` | conservation of data packets at every node over whole runs |

**The objects in place.** `PacketBuffer.dfy` (class `PacketQueue`, a singly linked list with head, tail and length),
`RouteEntry.dfy` (class `RouteEntry`), `InterfaceQueue.dfy` (class `PriQueue`) and `Agent.dfy` (class `Agent`, the
fields of class EAMRP and its handlers as methods with the source's loops) update their fields as the source does.
Each method is proved against the function of the same step. A fresh `Agent` is a fresh node, and
`Agents.Agent.TakeStep` keeps an agent in the state of its node through any step of the network, so the theorems about
reachable network states are theorems about agents.

## Choices

- The compiled-in configuration (`EAMRP/eamrp/eamrp.h:21-39`): node-disjoint paths and salvaging are on, link-layer
  detection is off, so `rt_ll_failed` only drops its packet and local repair is never started. A route is therefore
  `Down` or `Up`.
- `INFINITY`, which `eamrp.cc` assigns to the advertised hop count, has its definition commented out
  (`EAMRP/eamrp/eamrp.h:96`). It is modelled as "nothing advertised yet" (`None`), above every hop count; the initial
  `INFINITY2` of that field (`EAMRP/eamrp/eamrp_rtable.cc:22`) is the same value. `rt_last_hop_count` keeps its
  initial 255 (`EAMRP/eamrp/eamrp_rtable.cc:21`), which makes the first request for a destination never heard of
  network-wide.
- Sequence numbers, hop counts and broadcast ids are unbounded naturals; time is a real number and a parameter of
  each step. `eamrp_max_paths_` and `eamrp_prim_alt_path_len_diff_` are parameters of each node and may have any
  value; a route's first path is accepted whatever they are.
- History variables, which no decision reads: `said` (routes a node has advertised), `log` (the same for the whole
  network), `pruned` (a path has been removed since the entry adopted its present number), `lost` (packets that
  left the buffer without being returned).
- A new RREQ carries a first hop of 0; the source leaves the field unset, and every receiver overwrites it because
  the hop count is 0.
- The active `purge()` of the packet buffer (`EAMRP/eamrp/eamrp_rqueue.cc:204-232`) unlinks aged packets without
  handing them to `drop()`; the commented-out version above it did, as timed out. The model follows the code: such a
  packet is lost with reason `AgedOut`, and the two versions are proved to agree in everything but that reason.
- An empty path list in `forward` would be a null dereference; the model does nothing there, and
  `LoopFreedom.TableInvariant` shows that a route that is up always has a path.
- `EAMRP/eamrp/eamrp.cc:812` admits that its author does not know what one rejected case is for; the model keeps it
  (`Routes.LongerThanKnown`).

## Model

| member | source | states |
|---|---|---|
| LoopFreedom.LoopFree | EAMRP/eamrp/eamrp.cc:757-827 | Loop freedom: in every reachable network state, for every destination, no walk that may take any alternate path at every node visits a node twice. |
| LoopFreedom.EdgeDescends | EAMRP/eamrp/eamrp.cc:1018-1063 | Why: each next hop of each stored path holds a newer number for the destination, or the same number and a strictly smaller advertised hop count. |
| LoopFreedom.WalkDescends | EAMRP/eamrp/eamrp.cc:757-827 | The descent accumulates along any walk over stored paths. |
| LoopFreedom.DestinationIsLast | EAMRP/eamrp/eamrp.cc:993-996 | A node never stores a path to itself, so a walk that reaches the destination ends there. |
| LoopFreedom.PathSource | EAMRP/eamrp/eamrp.cc:964-968 | Every stored path was learned from an advertisement that its next hop really made and still stands by; one-hop paths lead to the destination itself. |
| LoopFreedom.NodeDisjoint | EAMRP/eamrp/eamrp.cc:791-802 | Node-disjointness: two alternate paths of one node, followed along the preferred paths of nodes that hold the same number and have removed no path under it, share no intermediate node. |
| LoopFreedom.LastHopIsReal | EAMRP/eamrp/eamrp.cc:967-969 | The last hop stored with a path is the last node before the destination when the path is followed hop by hop. |
| LoopFreedom.SharedLastHop | EAMRP/eamrp/eamrp.cc:1127 | The preferred path of any node on such a walk ends in the walk's own last hop. |
| LoopFreedom.FrozenAdvertisement | EAMRP/eamrp/eamrp.cc:886-888 | Over a whole run, any two messages (RREQ, RREP or HELLO) one node sends about one destination under one sequence number carry the same hop count. |
| LoopFreedom.SentIsLogged | EAMRP/eamrp/eamrp.cc:964-966 | Everything advertised in any step of a run is still on record at its end. |
| LoopFreedom.KnownPathAgrees | EAMRP/eamrp/eamrp.cc:776-783 | The asserts on a path already known never fire, in recvRequest or recvReply: a message that offers a path under the number already held finds the route up with an even number, and a known path through the same neighbour has the offered hop count. |
| LoopFreedom.AnsweredRouteIsEven | EAMRP/eamrp/eamrp.cc:875-879 | The assert before a reply from the table never fires: after the reverse path has been learned, a route to the node asked for that is up has an even number. |
| LoopFreedom.ErroredRouteIsEven | EAMRP/eamrp/eamrp.cc:1213-1221 | The assert in the loop of recvError never fires, at any entry. |
| LoopFreedom.FailedRouteIsEven | EAMRP/eamrp/eamrp.cc:402-407 | The assert in the loop of handle_link_failure never fires, at any route. |
| LoopFreedom.TableInvariant | EAMRP/eamrp/eamrp_rtable.cc:103-207 | In every reachable state a route is up iff it has a path, the stored count is the number of paths and within the limit, next hops and last hops are pairwise distinct, no path is longer than what was advertised, up routes have even numbers of at least 2, down routes 0 or odd ones. |
| LoopFreedom.Ownership | EAMRP/eamrp/eamrp.cc:1231-1233 | No number recorded or heard about a destination exceeds its own by more than one, and even ones never exceed it. |
| LoopFreedom.OwnershipInFlight | EAMRP/eamrp/eamrp.cc:571-573 | No number in any message in the air exceeds its destination's own by more than one, even ones never exceed it, and RERRs carry only 0 or odd numbers. |
| LoopFreedom.ReplyIsFreshEnough | EAMRP/eamrp/eamrp.cc:851-870 | Whatever RREP about itself a node sends on receiving an RREQ in a reachable state is no older than the number the RREQ asked for and carries the node's new number, which is even and has risen by at most 2. |
| LoopFreedom.NumbersNeverFall | EAMRP/eamrp/eamrp.cc:410-411 | Over any run no node's number for any destination ever falls. |
| Network.StepKeepsSafe | EAMRP/eamrp/eamrp.cc:666-699 | Every step of the network keeps the invariant: all node invariants, every advertisement still honoured by its sender, every message in the air well-formed and within its owner's number. |
| Network.RunSafe | EAMRP/eamrp/eamrp.cc:122-142 | Every state of every run from fresh nodes satisfies the invariant. |
| Network.StepAfter | EAMRP/eamrp/eamrp.cc:608-662 | A step leaves the node that takes it in the invariant, with an even number that has not fallen, and forgets nothing it has said. |
| NodeSteps.HandleKeepsGood | EAMRP/eamrp/eamrp.cc:607-699 | Every event any node can handle keeps the node invariant. |
| NodeSteps.RecvRequestGood | EAMRP/eamrp/eamrp.cc:704-974 | recvRequest keeps the node invariant, whatever it does with the request. |
| NodeSteps.AbsorbRequestGood | EAMRP/eamrp/eamrp.cc:727-827 | After the reverse-path part the invariant holds, and if processing goes on the reverse route is up under the request's number. |
| NodeSteps.AnswerRequestGood | EAMRP/eamrp/eamrp.cc:847-973 | Answering, or passing a request on, keeps every earlier advertisement true. |
| NodeSteps.RecvReplyGood | EAMRP/eamrp/eamrp.cc:978-1136 | recvReply keeps the node invariant. |
| NodeSteps.AbsorbReplyGood | EAMRP/eamrp/eamrp.cc:1007-1063 | After the forward-path part the invariant holds, and a kept reply leaves the route up under its number. |
| NodeSteps.RecvErrorGood | EAMRP/eamrp/eamrp.cc:1193-1258 | recvError keeps the node invariant. |
| NodeSteps.LoseNeighborGood | EAMRP/eamrp/eamrp.cc:1648-1695 | nb_delete keeps the node invariant. |
| NodeSteps.SendRequestGood | EAMRP/eamrp/eamrp.cc:1333-1453 | sendRequest keeps the node invariant. |
| NodeInvariant.LearnReverseOk | EAMRP/eamrp/eamrp.cc:757-827 | The reverse-route update keeps the entry invariant and only evolves the entry: its number never falls, and while it stays the same the advertised hop count is kept and, unless a path has been removed, so are the hops and the length of the preferred path. |
| NodeInvariant.LearnForwardOk | EAMRP/eamrp/eamrp.cc:1018-1063 | The same for the forward-route update. |
| NodeInvariant.AdvertiseOk | EAMRP/eamrp/eamrp.cc:886-888 | Advertising fixes a finite hop count that no stored path exceeds. |
| NodeInvariant.FailRouteOk | EAMRP/eamrp/eamrp.cc:402-431 | A broken link keeps the entry invariant and leaves no path through the lost neighbour. |
| NodeInvariant.ErrorRouteOk | EAMRP/eamrp/eamrp.cc:1210-1245 | An error entry keeps the entry invariant. |
| NodeInvariant.ExpireRouteOk | EAMRP/eamrp/eamrp.cc:564-577 | Expiry keeps the entry invariant. |
| Waiting.NoPacketWaits | EAMRP/eamrp/eamrp.cc:830-846 | In every reachable state the buffer holds no packet whose destination has an up route. |
| Waiting.HandleWaiting | EAMRP/eamrp/eamrp.cc:1065-1095 | Every handler keeps it so. |
| Waiting.ResolveWaiting | EAMRP/eamrp/eamrp.cc:508-524 | rt_resolve buffers a packet only while its route is down. |
| DataPackets.WaitingLeave | EAMRP/eamrp/eamrp.cc:1084-1091 | When a route comes up at a node of a reachable network, whatever it has handled, every packet for that destination that waited and has not aged is transmitted to the first next hop of the route, oldest first; no other data packet is handed out, none for the destination stays, and the others that have not aged stay in order. |
| DataPackets.HandleBringsUp | EAMRP/eamrp/eamrp.cc:830-846 | The same for one event at any node that satisfies the invariant, with a packet dropped only for a spent TTL. |
| DataPackets.OwnPacketsWait | EAMRP/eamrp/eamrp.cc:513-516 | In every reachable state a node's buffer holds its own packets only, with their full TTL. |
| DataPackets.DataExact | EAMRP/eamrp/eamrp.cc:488-661 | What becomes of any unicast data packet: refused if it has come back or its TTL runs out; with a route that is up, exactly one transmission of it to the first stored next hop, the path is kept alive, and after a data packet from elsewhere rt_error is set; an own packet without a route joins the buffer and a route is asked for; one from elsewhere causes one RERR that names its destination and the number held, and is dropped. Nothing else changes. |
| DataPackets.WaitsOrDropped | EAMRP/eamrp/eamrp.cc:513-516 | A packet made to wait is last in the buffer, due RTQ_TIMEOUT later; if the call for its route gives up, it is dropped with the others for its destination. |
| DataPackets.UnknownDestination | EAMRP/eamrp/eamrp.cc:1381-1397 | The first packet for a destination never heard of waits, and causes one network-wide request that asks for any number. |
| DataPackets.DataDescends | EAMRP/eamrp/eamrp.cc:1293-1295 | In a reachable state a data packet is sent along a stored path, to a node strictly closer to its destination. |
| Forwarding.ForwardExact | EAMRP/eamrp/eamrp.cc:1266-1327 | forward() hands out that one packet along the preferred path, keeps the path alive, and marks the route for errors iff the packet is data from elsewhere. |
| Forwarding.FlushExact | EAMRP/eamrp/eamrp.cc:841-845 | The loop that empties the buffer for a destination forwards every packet for it that has not aged, oldest first, and leaves the others that have not aged, in order. |
| Forwarding.SettleExact | EAMRP/eamrp/eamrp.cc:830-846 | A route that has come up: the request state is reset, and the waiting packets go out. |
| Forwarding.DrainExact | EAMRP/eamrp/eamrp.cc:1366-1368 | The loop that gives packets up drops exactly those, oldest first. |
| Forwarding.DequeWaiting | EAMRP/eamrp/eamrp_rqueue.cc:79-110 | deque(dst) takes the first waiting packet for the destination, and none iff none waits. |
| Learning.LearnForwardExact | EAMRP/eamrp/eamrp.cc:1018-1063 | A reply is kept iff its number is newer, or it is equal, the path shorter than what was advertised, and the path either known or sharing no hop with a stored one, with room for it and within the length difference of every stored path. A newer number makes it the only path; a known path lives longer; a new one is appended behind the others, and nothing else changes. What is not kept changes nothing. |
| Learning.LearnReverseExact | EAMRP/eamrp/eamrp.cc:757-827 | The reverse route takes up paths under the same condition. A request goes on with a reverse path iff it was taken up (and the allowed difference is not negative, if the path is new), and without one iff there is no room, or it shares a hop with another path and is not stopped at its destination as longer than the one with its last hop. |
| Learning.TakenStores | EAMRP/eamrp/eamrp.cc:1042-1051 | Once an offer is taken up the offered path is stored; under an equal number every earlier path is kept, in order, with a lifetime that has not fallen. |
| Discovery.RequestReceived | EAMRP/eamrp/eamrp.cc:704-974 | What a node of a reachable network does with any request: nothing if it is its own; else it caches it, and the reverse route is exactly the one learned; a kept request releases the packets that wait for its source and is answered by one reply about the node itself, one from the table, one rebroadcast, or nothing, each message given field by field and each case by its condition; a request that is not kept changes nothing else. |
| Discovery.RequestExact | EAMRP/eamrp/eamrp.cc:704-974 | The same for any node that satisfies the invariant. |
| Discovery.AnswerExact | EAMRP/eamrp/eamrp.cc:847-973 | Answering by itself: which message goes out, which reply counts, which route is advertised, and that nothing else changes. |
| Discovery.RepliesAreFresh | EAMRP/eamrp/eamrp.cc:875-877 | No RREP sent on receiving an RREQ, about whichever node, carries a number older than the one asked for, and each goes back to the node the request was heard from. |
| Discovery.FirstCopyTravelsOn | EAMRP/eamrp/eamrp.cc:949-971 | A first copy, kept, with TTL left, for another node: if no route that is up has a number as new as the one asked for, exactly one RREQ goes out, and it asks for the larger of the two numbers. |
| Discovery.FirstCopyIsAnswered | EAMRP/eamrp/eamrp.cc:875-903 | If such a route exists and the request has brought a reverse path, exactly one RREP goes out, from the table, to the node the request was heard from. |
| Discovery.CanAnswerBefore | EAMRP/eamrp/eamrp.cc:847-877 | Which of the two it is does not depend on what the request itself brings, unless it asks for its own source. |
| Discovery.RequestElsewhere | EAMRP/eamrp/eamrp.cc:736-827 | A request changes no route but that to its source, except that a route told of in the reply is advertised and marked for errors. |
| Discovery.ReplyReceived | EAMRP/eamrp/eamrp.cc:978-1136 | What a node of a reachable network does with any reply: nothing if it is about itself; else the forward route is exactly the one learned, a kept reply releases the waiting packets, and it is relayed iff it is for another node, the request is cached with no reply counted, and the reverse route is up; the message goes out iff TTL is left, and nothing else changes. |
| Discovery.ReplyExact | EAMRP/eamrp/eamrp.cc:978-1136 | The same for any node that satisfies the invariant. |
| Discovery.RelayExact | EAMRP/eamrp/eamrp.cc:1104-1134 | Relaying by itself: the message, to the first stored next hop of the route to the node that asked; the reverse path is kept alive, the forward route advertised at its longest path and marked for errors, the reply counted. |
| Discovery.RelayClimbs | EAMRP/eamrp/eamrp.cc:1115-1118 | A relayed reply goes along a stored path to a node strictly closer to the node that asked, so it makes progress on its way back. |
| Discovery.HelloReceived | EAMRP/eamrp/eamrp.cc:1587-1610 | What a node does with a HELLO: a known neighbour is kept for 4.5 seconds more, a new one for 3; the one-hop path is offered to the table, and if it is taken up the waiting packets go out; nothing is sent. |
| Discovery.HearNeighborExact | EAMRP/eamrp/eamrp.cc:1593-1628 | The neighbour part by itself. |
| Discovery.HelloTimerExact | EAMRP/eamrp/eamrp.cc:155-166 | The timer sends one HELLO about the node itself iff some route is up. |
| Flood.ReceptionDecreases | EAMRP/eamrp/eamrp.cc:616-618 | Every reception of an RREQ or RREP strictly decreases a weight of the messages in the air; no other reception raises it. |
| Flood.EventFree | EAMRP/eamrp/eamrp.cc:1433-1451 | A timer or a data packet that makes the node send no RREQ of its own does not raise the weight of the messages in the air, whatever HELLOs and RERRs it sends. |
| Flood.FloodTerminates | EAMRP/eamrp/eamrp.cc:949-971 | While no node sends a new RREQ of its own, and whatever timers, data packets, losses and cache purges come in between, no more RREQs and RREPs are ever received than the messages in the air at the start weigh. |
| Flood.AnswerWeight | EAMRP/eamrp/eamrp.cc:1270-1278 | All copies of what a request causes weigh less than the request: a rebroadcast has a smaller TTL, a reply is outweighed by any live request. |
| Outbox.MessageSent | EAMRP/eamrp/eamrp.cc:676-697 | A received message causes at most one other: an RREQ one RREP or one rebroadcast, an RREP at most its relay, a HELLO nothing, an RERR at most one RERR. |
| OncePerRequest.OncePerRequest | EAMRP/eamrp/eamrp.cc:728-734 | Over any run, from the step that caches a request for as long as it stays cached, a node passes it on at most once and originates or relays, as an intermediate node, at most one reply to it. |
| OncePerRequest.HandleRule | EAMRP/eamrp/eamrp.cc:951-955 | One handler: passing a request on needs it uncached, replying needs a zero reply count and leaves it used up. |
| OncePerRequest.RequestRule | EAMRP/eamrp/eamrp.cc:883-884 | recvRequest obeys that rule. |
| OncePerRequest.RelayRule | EAMRP/eamrp/eamrp.cc:1105-1114 | Relaying a reply obeys that rule. |
| OncePerRequest.CountAfterMark | EAMRP/eamrp/eamrp.cc:1114 | Marking a cached request answered changes the reply count of that request only. |
| OncePerRequest.CountAfterPurge | EAMRP/eamrp/eamrp.cc:253-265 | Purging old ids changes no reply count of a request that stays cached. |
| OncePerRequest.IdTimerExact | EAMRP/eamrp/eamrp.cc:253-265 | The timer forgets exactly the requests that are due, and changes nothing else. |
| Errors.LinkFailureExact | EAMRP/eamrp/eamrp.cc:393-439 | After handle_link_failure each route has exactly its paths not through the neighbour, in order; it goes down iff none is left, under the next odd number or the newest heard of; one RERR names exactly the routes that went down with rt_error set, once each, with their new numbers; nothing else changes. |
| Errors.FailRouteExact | EAMRP/eamrp/eamrp.cc:402-431 | The same for one route. |
| Errors.DeleteIsAvoid | EAMRP/eamrp/eamrp_rtable.cc:184-196 | With distinct next hops, deleting the first path through a neighbour leaves exactly the paths that avoid it, in order. |
| Errors.NoticesExact | EAMRP/eamrp/eamrp.cc:412-423 | Which routes an RERR names, in both directions, without repetition. |
| Errors.RecvErrorExact | EAMRP/eamrp/eamrp.cc:1210-1255 | A route changes iff some entry of the RERR is about it, it is up through the sender and its number is not newer; the first such entry counts: its number is remembered, exactly that path is lost, the others stay in order, and the route goes down under the newest number heard of iff none is left. One RERR names exactly the routes that went down with rt_error set, once each, with their new numbers; nothing else changes. |
| Errors.RelayCostsRoutes | EAMRP/eamrp/eamrp.cc:1235-1241 | Each entry a node passes on costs it one up route. |
| Errors.ErrorStepConsumes | EAMRP/eamrp/eamrp.cc:1232-1243 | In the network, handling an RERR brings no route up, and each entry passed on uses up one (node, destination) pair with an up route. |
| Errors.StepConsumes | EAMRP/eamrp/eamrp.cc:1232-1243 | The same for any event that brings no route up: no more entries are passed on than pairs are lost. |
| Errors.CascadeEnds | EAMRP/eamrp/eamrp.cc:1247-1255 | Over any run in which no route comes up, whatever else the nodes handle, the entries passed on in answer to RERRs are no more than the up pairs at its start. |
| Errors.ErrorSendsWhenPassing | EAMRP/eamrp/eamrp.cc:1247-1255 | A node answers an RERR with its own exactly when it passes entries on, and names just those. |
| Neighbours.NbPurgeExact | EAMRP/eamrp/eamrp.cc:1703-1715 | nb_purge removes exactly the expired neighbours, raises the node's number by 2 for each, and leaves no route and no queued packet with one of them as next hop; the other packets keep their order. |
| Neighbours.NbPurgeSends | EAMRP/eamrp/eamrp.cc:1708-1713 | What a whole nb_purge does with data packets is exactly this: neighbour by neighbour and in order, each packet queued for an expired one meets its fate once those up to it are lost. |
| Neighbours.NbPurgeSendsToLost | EAMRP/eamrp/eamrp.cc:1669-1713 | When a purge sends a packet to a neighbour that it removes: iff some packet queued for an expired neighbour is data with salvages, TTL and distance left, and the first hop of its route outside the expired neighbours up to that one has expired too. |
| PurgeExample.SalvagedToLaterNeighbour | EAMRP/eamrp/eamrp.cc:1669-1713 | That does happen: a run, given step by step, reaches a node whose next purge salvages a packet to a neighbour that it then removes. |
| PurgeExample.StrandedReached | EAMRP/eamrp/eamrp.cc:1614-1624 | The run: node 9 asks, nodes 1 and 2 pass the request on and say HELLO, node 0 hears all four messages at time 0 and nothing more until time 4. |
| Neighbours.LoseNeighborExact | EAMRP/eamrp/eamrp.cc:1648-1695 | nb_delete in a node that has already lost others: the queued packets bound for the neighbour leave the queue and meet their fates, in order; of each route exactly the paths through no lost neighbour are left, in order, and it is up iff there is one; no other packet is touched. A packet's fate is said of the node before: salvaged iff it is data, a path is left and it has been salvaged fewer than 10 times, and then along the first path left; otherwise dropped. |
| Neighbours.NbDeleteExact | EAMRP/eamrp/eamrp.cc:1648-1695 | The same for nb_delete by itself. |
| Neighbours.NbDeleteReports | EAMRP/eamrp/eamrp.cc:393-439 | nb_delete sends one RERR that names exactly the routes it takes down with rt_error set, once each, under the next odd number or the newest heard of; no other number changes. |
| Neighbours.SalvageExact | EAMRP/eamrp/eamrp.cc:1669-1682 | The loop over the interface queue by itself: every packet bound for the lost neighbour meets its fate, in order, and no route changes. |
| Neighbours.FateAvoids | EAMRP/eamrp/eamrp.cc:1672-1681 | What a fate can be: dropped, delivered, or sent to a next hop of the route that is not lost, with at most 10 salvages. |
| Neighbours.SalvageQueue | EAMRP/queue/priqueue.cc:155-178 | Draining takes exactly the packets bound for the neighbour and keeps the others in order. |
| Neighbours.UnexpiredMember | EAMRP/eamrp/eamrp.cc:1708-1713 | Who stays: exactly the neighbours whose time has not come. |
| Neighbours.ExpiredMember | EAMRP/eamrp/eamrp.cc:1708-1713 | Who goes: exactly the addresses of the others. |
| Neighbours.OutsideMember | EAMRP/queue/priqueue.cc:161-166 | A packet stays in the queue iff it was there and is not bound for a lost neighbour. |
| RequestRuns.RingBudget | EAMRP/eamrp/eamrp.cc:1381-1399 | Over any stretch of a run in which a node has no route to a destination, it sends at most 3 ring-limited requests for it, whatever else happens. |
| RequestRuns.WideBudget | EAMRP/eamrp/eamrp.cc:1362-1371 | Over such a stretch without a give-up it sends at most RREQ_RETRIES + 1 = 4 network-wide requests. |
| RequestRuns.AfterGiveUp | EAMRP/eamrp/eamrp.cc:1362-1371 | Over any stretch of a run in which a route stays down, every request after a give-up is network-wide, and until the next give-up at most RREQ_RETRIES + 1 = 4 requests of any kind are sent. |
| RequestRuns.BetweenGiveUps | EAMRP/eamrp/eamrp.cc:1362-1396 | Between two give-ups in a row, with the route down throughout, exactly 4 requests of any kind are sent, all network-wide. |
| RequestRuns.AskOrder | EAMRP/eamrp/eamrp.cc:1353-1413 | Over such a stretch TTLs never decrease, and after a network-wide request the next comes at least a second later. |
| RequestRuns.AskTimeout | EAMRP/eamrp/eamrp.cc:1406-1413 | A step that asks sets a wait that ends after now and at most a second later. |
| RequestRuns.RunIsPeriod | EAMRP/eamrp/eamrp.cc:1333-1414 | While a route stays down its entry goes through calls of sendRequest and nothing else, and exactly the requests of those calls are sent. |
| RequestRuns.HandleTried | EAMRP/eamrp/eamrp.cc:1347-1356 | Any single handler that leaves a route down amounts to no call or to one call of sendRequest for it. |
| RequestBudget.SendRequestTries | EAMRP/eamrp/eamrp.cc:1333-1453 | sendRequest changes only that entry, and sends an RREQ for it exactly when a call asks. |
| RequestBudget.AtMostThreeRings | EAMRP/eamrp/eamrp.cc:1381-1399 | Any series of calls asks at most 3 ring-limited times. |
| RequestBudget.TtlsNeverDecrease | EAMRP/eamrp/eamrp.cc:1381-1399 | In any series of calls the TTLs never decrease. |
| RequestBudget.WideUntilGiveUp | EAMRP/eamrp/eamrp.cc:1362-1371 | Without a give-up the request count grows by exactly the network-wide requests and never passes 4. |
| RequestBudget.WideAfterGiveUp | EAMRP/eamrp/eamrp.cc:1363-1364 | After a give-up every further request is network-wide, whatever the entry, given the invariant that a positive count goes with a network-wide last TTL. |
| RequestBudget.TryTimeout | EAMRP/eamrp/eamrp.cc:1406-1413 | A call never brings the end of the wait forward; one that asks or gives up sets it after now and within a second, exactly a second after a network-wide request. |
| RequestBudget.WideSpacing | EAMRP/eamrp/eamrp.cc:1353-1356 | After a network-wide request nothing is asked or given up for at least a second. |
| RequestBudget.NoLatency | EAMRP/eamrp/eamrp.cc:272-290 | With no latency ever recorded the per-hop time is the default. |
| Asking.SendRequestExact | EAMRP/eamrp/eamrp.cc:1333-1453 | One call for a route that is down waits, gives up and drops what waits, or sends one RREQ, given field by field: the next TTL, the number the route has, a new own number and a new broadcast id; the wait is twice the TTL times the time per hop times the network-wide requests so far, at most a second. |
| Asking.HandleIssues | EAMRP/eamrp/eamrp.cc:1442 | The requests a node starts while handling any event carry its next broadcast ids, one by one. |
| Asking.RequestIdsUnique | EAMRP/eamrp/eamrp.cc:1442 | Over a whole run two requests that one node starts under one broadcast id are one and the same. |
| Expiry.RtPurgeExact | EAMRP/eamrp/eamrp.cc:555-601 | After rt_purge at any time past zero no stored path is out of date; each up route keeps exactly its live paths, in order, and goes down under the next odd number or the newest heard of iff none is left; no other route loses anything. |
| Expiry.ExpireRouteExact | EAMRP/eamrp/eamrp.cc:564-577 | The same for one route. |
| RoutePurge.RtPurgeTreats | EAMRP/eamrp/eamrp.cc:555-601 | For every destination, in any node that satisfies the invariant: rt_purge forwards the waiting packets of a route that is up and not due, drops those of one that has run out of live paths or is given up, leaves the others, and asks once for a route that is down, is due and has a live packet waiting. |
| RoutePurge.RtPurgeAsks | EAMRP/eamrp/eamrp.cc:588-598 | In a reachable state rt_purge hands no packet on, since none waits for a route that is up: it drops those whose route is given up, and asks again for each route that is down, is due and has a packet waiting. |
| Expiry.ReachableIsKept | EAMRP/eamrp/eamrp_rtable.cc:230-242 | Every reachable node satisfies what these exactness results presuppose. |
| BufferLaws.ScanIsHeadPurge | EAMRP/eamrp/eamrp_rqueue.cc:177-232 | On an ordered buffer, rescanning the whole list and the commented-out purge of the head leave the same queue and take out the same packets in the same order; they differ only in what they tell drop(): nothing, or a timeout. |
| BufferLaws.TimedOutAt | EAMRP/eamrp/eamrp_rqueue.cc:182-186 | One by one: the packets taken out are the same, with reason QueueTimeout. |
| BufferLaws.AlwaysOrdered | EAMRP/eamrp/eamrp_rqueue.cc:32-33 | Over any series of calls with a clock that never goes back, the buffer is ordered by deadline and holds at most 64 packets. |
| BufferLaws.ScanRefinesHead | EAMRP/eamrp/eamrp_rqueue.cc:191-232 | So in every such series of calls, at any time, the two purges agree up to that reason. |
| BufferLaws.DequeOldest | EAMRP/eamrp/eamrp_rqueue.cc:79-110 | deque(dst) returns the oldest live packet for dst iff there is one; other packets for dst and all others keep their order. |
| BufferLaws.EveryPacketAccounted | EAMRP/eamrp/eamrp_rqueue.cc:22-232 | Over any series of calls each packet offered is in exactly one of: buffered, returned, dropped from a full queue, aged out. |
| BufferLaws.EnqueConserves | EAMRP/eamrp/eamrp_rqueue.cc:23-58 | enque makes the buffer accountable for exactly one more packet, that one. |
| BufferLaws.DequeConserves | EAMRP/eamrp/eamrp_rqueue.cc:79-110 | deque(dst) hands over exactly what it returns. |
| BufferRuns.HandleCalls | EAMRP/eamrp/eamrp.cc:607-699 | Whatever a node handles, its buffer goes through calls of enque and deque at that time and nothing else. |
| BufferRuns.RunReplays | EAMRP/eamrp/eamrp_rqueue.cc:22-110 | Over any run each node's buffer is what some calls of enque and deque, in the order of their times, make of an empty one, so every law of the buffer holds of it. |
| BufferRuns.ReachableScan | EAMRP/eamrp/eamrp_rqueue.cc:191-232 | In every reachable network state each node's buffer is bounded, and the two purges agree, up to the reason, whenever it is next purged. |
| Conservation.PacketsConserved | EAMRP/eamrp/eamrp.cc:608-662 | Over any run, of any packet, as many copies as were brought to a node (as data, or left in its interface queue by the link layer) are in its buffer, in its interface queue, lost by its buffer, or gone: transmitted, delivered, dropped, or taken by the link layer. |
| Conservation.HandleHeld | EAMRP/eamrp/eamrp.cc:666-699 | The same balance for one event: no handler loses, invents or duplicates a data packet. |
| Conservation.SalvageHeld | EAMRP/eamrp/eamrp.cc:1669-1682 | Salvage moves packets from the interface queue to the scheduler or to drop() and loses none. |
| Conservation.DequeLoad | EAMRP/eamrp/eamrp_rqueue.cc:79-110 | What the buffer holds and has lost shrinks by exactly the packet that deque(dst) returns. |
| PacketBuffer.PacketQueue.constructor | EAMRP/eamrp/eamrp_rqueue.cc:15-20 | An empty, consistent queue. |
| PacketBuffer.PacketQueue.Enque | EAMRP/eamrp/eamrp_rqueue.cc:23-58 | The list stays consistent, and the queue is the aged-free old queue, minus its oldest packet if full, plus the stamped packet. |
| PacketBuffer.PacketQueue.Deque | EAMRP/eamrp/eamrp_rqueue.cc:79-110 | deque(dst) in place: the packet and the queue of the specification; the packet leaves the list's objects. |
| PacketBuffer.PacketQueue.DequeAny | EAMRP/eamrp/eamrp_rqueue.cc:61-75 | deque(): the oldest live packet and the rest. |
| PacketBuffer.PacketQueue.Find | EAMRP/eamrp/eamrp_rqueue.cc:113-122 | Whether a packet for dst is queued, live or not. |
| PacketBuffer.PacketQueue.RemoveHead | EAMRP/eamrp/eamrp_rqueue.cc:132-146 | Takes the head off; null and no change when empty. |
| PacketBuffer.PacketQueue.FindPacketWithDst | EAMRP/eamrp/eamrp_rqueue.cc:149-159 | The first packet for dst and its predecessor, or null past the end. |
| PacketBuffer.PacketQueue.FindAgedPacket | EAMRP/eamrp/eamrp_rqueue.cc:192-202 | The first aged packet and its predecessor; false iff none is aged. |
| PacketBuffer.PacketQueue.Purge | EAMRP/eamrp/eamrp_rqueue.cc:205-232 | The rescanning loop ends and leaves exactly the live packets, in order, with each aged one recorded as lost. |
| PacketBuffer.PacketQueue.Unlink | EAMRP/eamrp/eamrp_rqueue.cc:92-102 | All three unlinking branches take out exactly that packet and keep head, tail and length right. |
| PacketBuffer.PacketQueue.VerifyQueue | EAMRP/eamrp/eamrp_rqueue.cc:163-174 | The two asserts of verifyQueue always hold. |
| PacketBuffer.PurgeStep | EAMRP/eamrp/eamrp_rqueue.cc:208-230 | Unlinking the first aged packet does not change what the whole purge comes to. |
| RouteEntries.RouteEntry.constructor | EAMRP/eamrp/eamrp_rtable.cc:11-46 | A fresh entry: down, number 0, nothing advertised. |
| RouteEntries.RouteEntry.PathInsert | EAMRP/eamrp/eamrp_rtable.cc:103-126 | Appends the path and counts it; nothing else changes. |
| RouteEntries.RouteEntry.PathLookup | EAMRP/eamrp/eamrp_rtable.cc:129-139 | The first path through that next hop, if any. |
| RouteEntries.RouteEntry.DisjointPathLookup | EAMRP/eamrp/eamrp_rtable.cc:142-152 | The first path with both hops equal, if any. |
| RouteEntries.RouteEntry.NewDisjointPath | EAMRP/eamrp/eamrp_rtable.cc:156-166 | True iff no stored path shares the next hop or the last hop. |
| RouteEntries.RouteEntry.PathLookupLasthop | EAMRP/eamrp/eamrp_rtable.cc:170-180 | The first path with that last hop, if any. |
| RouteEntries.RouteEntry.PathDelete | EAMRP/eamrp/eamrp_rtable.cc:184-196 | Deletes the first path through that next hop and nothing else. |
| RouteEntries.RouteEntry.PathDeleteAll | EAMRP/eamrp/eamrp_rtable.cc:199-207 | Empties the list and zeroes the count. |
| RouteEntries.RouteEntry.PathGetMaxHopcount | EAMRP/eamrp/eamrp_rtable.cc:269-281 | The largest stored hop count, which some path has; None, for the INFINITY2 of the source, when there is no hop count above 0. |
| RouteEntries.RouteEntry.PathGetMinHopcount | EAMRP/eamrp/eamrp_rtable.cc:284-295 | The smallest stored hop count, at most INFINITY2. |
| RouteEntries.RouteEntry.PathPurge | EAMRP/eamrp/eamrp_rtable.cc:311-328 | The restart-after-delete loop ends and equals the one-pass filter that keeps the live paths in order; the count drops by what was deleted. |
| RouteEntries.LivePathsDelete | EAMRP/eamrp/eamrp_rtable.cc:318-326 | Deleting any expired path does not change which paths are live, so the order of deletions does not matter. |
| RouteEntries.RouteEntry.TakeItDown | EAMRP/eamrp/eamrp.cc:459-482 | rt_down: no paths, nothing advertised, the number unchanged; no effect on a route already down. |
| RouteEntries.RouteEntry.Fail | EAMRP/eamrp/eamrp.cc:402-431 | One turn of the link-failure loop: the entry and the notice of the specification. |
| RouteEntries.RouteEntry.HearError | EAMRP/eamrp/eamrp.cc:1213-1244 | One turn of the recvError loop. |
| RouteEntries.RouteEntry.Expire | EAMRP/eamrp/eamrp.cc:564-577 | The expired branch of rt_purge. |
| RouteEntries.RouteEntry.LearnReversePath | EAMRP/eamrp/eamrp.cc:757-827 | The reverse-route update, with the verdict whether processing goes on and whether there is a reverse path. |
| RouteEntries.RouteEntry.LearnForwardPath | EAMRP/eamrp/eamrp.cc:1018-1063 | The forward-route update, with the verdict. |
| RouteEntries.RouteEntry.AdvertiseHops | EAMRP/eamrp/eamrp.cc:886-888 | Fixes the advertised hop count the first time only. |
| RouteEntries.RouteEntry.ResetRequests | EAMRP/eamrp/eamrp.cc:831-834 | The soft request state is reset, nothing else. |
| RouteEntries.RouteEntry.Pause | EAMRP/eamrp/eamrp.cc:1363-1364 | A give-up: a second's pause and a zero count. |
| RouteEntries.RouteEntry.MeanLatency | EAMRP/eamrp/eamrp.cc:272-290 | The mean of the positive latencies, or the default. |
| RouteEntries.RouteEntry.Attempt | EAMRP/eamrp/eamrp.cc:1381-1414 | The next TTL, count and timeout. |
| InterfaceQueue.PriQueue.FilterNextHop | EAMRP/queue/priqueue.cc:155-178 | filter(id) takes out the first packet bound for id, or changes nothing. |
| InterfaceQueue.PriQueue.Filter | EAMRP/queue/priqueue.cc:137-152 | The in-place loop leaves exactly the packets the filter rejects, in order. |
| InterfaceQueue.UnfilteredCount | EAMRP/queue/priqueue.cc:138-151 | Filtering removes every copy of an accepted packet and no copy of any other. |
| InterfaceQueue.UnfilteredConcat | EAMRP/queue/priqueue.cc:142-151 | What is left keeps its order. |
| InterfaceQueue.PriQueue.RecvHighPriority | EAMRP/queue/priqueue.cc:110-134 | Head insertion, overflow drop and immediate sending, as one state change. |
| InterfaceQueue.HighPriorityFair | EAMRP/queue/priqueue.cc:110-134 | The queue never fills, the routing packet goes out at once or waits at the head, nobody is overtaken, and only the last packet in line can be dropped. |
| Agents.Agent.constructor | EAMRP/eamrp/eamrp.cc:122-142 | A fresh agent is a fresh node. |
| Agents.Agent.IdGet | EAMRP/eamrp/eamrp.cc:241-250 | The cached request, if any. |
| Agents.Agent.IdInsert | EAMRP/eamrp/eamrp.cc:217-223 | A new id at the head with count 0; nothing else changes. |
| Agents.Agent.IdPurgeAll | EAMRP/eamrp/eamrp.cc:253-265 | Exactly the live ids stay, in order. |
| Agents.Agent.RtLookup | EAMRP/eamrp/eamrp_rtable.cc:392-402 | The entry for a destination, null iff there is none. |
| Agents.Agent.RtAdd | EAMRP/eamrp/eamrp_rtable.cc:417-427 | A fresh entry at the head of the table. |
| Agents.Agent.HasActive | EAMRP/eamrp/eamrp_rtable.cc:446-456 | Whether some route is up. |
| Agents.Agent.ForwardData | EAMRP/eamrp/eamrp.cc:1266-1327 | forward() of a data packet refines the node step. |
| Agents.Agent.FlushBuffer | EAMRP/eamrp/eamrp.cc:840-845 | The loop that sends every buffered packet for a destination refines the node step. |
| Agents.Agent.DrainBuffer | EAMRP/eamrp/eamrp.cc:1365-1368 | The loop that drops every buffered packet for a destination refines the node step. |
| Agents.Agent.AskFor | EAMRP/eamrp/eamrp.cc:1333-1453 | sendRequest refines the node step. |
| Agents.Agent.RecvRequestMsg | EAMRP/eamrp/eamrp.cc:704-974 | recvRequest, with its loops and updates in place, refines the node step. |
| Agents.Agent.Answer | EAMRP/eamrp/eamrp.cc:847-973 | Reply as destination, reply from the table, or rebroadcast. |
| Agents.Agent.RecvReplyMsg | EAMRP/eamrp/eamrp.cc:978-1136 | recvReply refines the node step. |
| Agents.Agent.Relay | EAMRP/eamrp/eamrp.cc:1104-1134 | Relaying a reply along the preferred reverse path. |
| Agents.Agent.RecvHelloMsg | EAMRP/eamrp/eamrp.cc:1587-1610 | recvHello refines the node step. |
| Agents.Agent.HelloTick | EAMRP/eamrp/eamrp.cc:155-166 | A HELLO goes out iff some route is up. |
| Agents.Agent.RecvErrorMsg | EAMRP/eamrp/eamrp.cc:1193-1258 | recvError refines the node step. |
| Agents.Agent.HandleLinkFailure | EAMRP/eamrp/eamrp.cc:393-439 | handle_link_failure refines the node step. |
| Agents.Agent.NbHear | EAMRP/eamrp/eamrp.cc:1593-1600 | The neighbour is added or its time extended. |
| Agents.Agent.NbDelete | EAMRP/eamrp/eamrp.cc:1648-1695 | nb_delete refines the node step. |
| Agents.Agent.NbPurgeAll | EAMRP/eamrp/eamrp.cc:1703-1715 | nb_purge refines the node step. |
| Agents.Agent.ResolvePacket | EAMRP/eamrp/eamrp.cc:488-552 | rt_resolve refines the node step. |
| Agents.Agent.RecvDataPacket | EAMRP/eamrp/eamrp.cc:626-659 | recv() of a unicast data packet refines the node step. |
| Agents.Agent.RtPurgeAll | EAMRP/eamrp/eamrp.cc:555-601 | rt_purge refines the node step. |
| Agents.Agent.TimerFires | EAMRP/eamrp/eamrp.cc:148-179 | Each of the four timers refines the node step. |
| Agents.Agent.RecvMessage | EAMRP/eamrp/eamrp.cc:616-619 | recv() and recvEAMRP dispatch: any control message refines the node step. |
| Agents.Agent.TakeStep | EAMRP/eamrp/eamrp.cc:607-699 | An agent in the state of its network node before a step of the network is in the state of that node after it, and has sent what the node sends. |
| Agents.Agent.HandOver | EAMRP/eamrp/eamrp.cc:1451 | The scheduler takes what it has been handed, and nothing else changes. |

## Left out

- Flood.FloodTerminates: counts copies as used up when received; a link layer that delivers one copy again and again would repeat receptions.
- Errors.CascadeEnds: bounds the entries passed on, not receptions of one RERR that the network duplicates.
- LoopFreedom.NodeDisjoint: the nodes on both walks must hold the same number and have removed no path under it; removing the preferred path changes which last hop a node really leads to, while what it advertised stays frozen.
- RequestRuns.WideBudget: says nothing about how often a node gives up; RequestRuns.AfterGiveUp and RequestRuns.BetweenGiveUps say what happens in between.
- Conservation.PacketsConserved: tells packets apart by everything but TTL, next hop, deadline and salvage count, which nodes change on the way.
- Local repair and link-layer detection (`EAMRP/eamrp/eamrp.cc:305-390`, `442-456`, `181-207`) and link-disjoint paths: switched off by the configuration.
- Broadcast data packets (`EAMRP/eamrp/eamrp.cc:657-661`, `1282-1316`): flooded without touching any routing state.
- Precursor lists, per-entry neighbour lists, `path_delete_longest`, `path_findMinHop`, `rt_delete` and `id_lookup`: not called by the protocol code.
- Timestamps, the latency history, sending delays and jitter: the latency history is never written in this configuration, and when a message is delivered is left open anyway.
- `BroadcastId`, `Neighbor` and `Path` are records held in sequence fields rather than objects linked into lists; a pointer to one of them kept across a handler is a position in the sequence.
- The link layer's own use of the interface queue is one event that may change the queue in any way; DropTail's queue discipline is not part of this model.
- Field widths of packet headers, the capacity of the RERR arrays and wrap-around of counters.
- Tcl commands and variable binding, the scheduler, tracing and logging, `eamrp_logs.cc`, the simulation scripts and the packet header library.
- `PriQueue.recv` only chooses between the routing and the ordinary entry of the queue; `Terminate` empties it at the end of a simulation.

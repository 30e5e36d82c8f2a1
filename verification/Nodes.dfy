/** One protocol node as a value, and every handler of eamrp.cc as a function from the node's
    state to its next state. Packets handed to the scheduler are appended to `out`. */
module Nodes {
  import opened Basics
  import opened Routes
  import opened Buffers

  /** RREQ: `ipSrc` is the node that sent this copy, `src` the node that started the request. */
  datatype Request = Request(
    ipSrc: Addr, ttl: int, hopCount: nat, bcastId: nat, dst: Addr, dstSeqno: nat,
    src: Addr, srcSeqno: nat, firstHop: Addr)

  /** RREP: `nextHop` is the link-layer receiver, `ipDst` the node that started the request,
      `dst` the node the reply is about and `rpSrc` the node that sent this copy. */
  datatype Reply = Reply(
    nextHop: Addr, ipSrc: Addr, ipDst: Addr, ttl: int, hopCount: nat, dst: Addr, dstSeqno: nat,
    rpSrc: Addr, lifetime: real, bcastId: nat, firstHop: Addr)

  /** HELLO: `ipSrc` sent it, `dst` is the node it announces. */
  datatype Greeting = Greeting(ipSrc: Addr, ttl: int, dst: Addr, dstSeqno: nat, lifetime: real)

  /** RERR */
  datatype Error = Error(ipSrc: Addr, ttl: int, dests: seq<(Addr, nat)>)

  /** Control messages. */
  datatype Msg = Rreq(rq: Request) | Rrep(rp: Reply) | Hello(hi: Greeting) | Rerr(re: Error)

  datatype Out =
    | Send(m: Msg)           // control message
    | Transmit(p: Pkt)       // data packet to p.nexthop
    | Deliver(p: Pkt)        // data packet to the local agents
    | Dropped(p: Pkt)        // data packet given up by the agent

  datatype BroadcastId = BroadcastId(src: Addr, id: nat, expire: real, count: nat)

  datatype Neighbor = Neighbor(addr: Addr, expire: real)

  /** What one message claims: `sender` reaches `dst` in `hops` hops under `seqno`, and the last
      intermediate node on the way is `last` (None when the sender is the destination). */
  datatype Advert = Advert(sender: Addr, dst: Addr, seqno: nat, hops: nat, last: Option<Addr>)

  /** `order` lists the route entries head first. `said` is a history variable: every route this
      node has advertised. */
  datatype Node = Node(
    id: Addr, cfg: Config, seqno: nat, bid: nat,
    table: map<Addr, Entry>, order: seq<Addr>,
    ids: seq<BroadcastId>, nbrs: seq<Neighbor>,
    buffer: Buffer, ifq: seq<Pkt>,
    out: seq<Out>, said: set<Advert>)

  function NewNode(id: Addr, cfg: Config): Node {
    Node(id, cfg, 2, 1, map[], [], [], [], Buffer([], []), [], [], {})
  }

  function AdvertOf(m: Msg): Option<Advert> {
    match m
    case Rreq(rq) =>
      Some(Advert(rq.ipSrc, rq.src, rq.srcSeqno, rq.hopCount, if rq.hopCount == 0 then None else Some(rq.firstHop)))
    case Rrep(rp) =>
      Some(Advert(rp.rpSrc, rp.dst, rp.dstSeqno, rp.hopCount, if rp.hopCount == 0 then None else Some(rp.firstHop)))
    case Hello(hi) => Some(Advert(hi.ipSrc, hi.dst, hi.dstSeqno, 0, None))
    case Rerr(_) => None
  }

  function Adverts(m: Msg): set<Advert> {
    if AdvertOf(m).Some? then {AdvertOf(m).value} else {}
  }

  function Emit(n: Node, m: Msg): Node {
    n.(out := n.out + [Send(m)], said := n.said + Adverts(m))
  }

  // ---- Route table ----

  function Put(n: Node, d: Addr, e: Entry): Node {
    n.(table := n.table[d := e])
  }

  /** rt_lookup followed by rt_add when the entry is missing. */
  function EnsureEntry(n: Node, d: Addr): (r: Node)
    ensures d in r.table && r.table.Keys == n.table.Keys + {d}
    ensures forall k | k in n.table :: r.table[k] == n.table[k]
  {
    if d in n.table then n else n.(table := n.table[d := NewEntry(d)], order := [d] + n.order)
  }

  predicate IsUp(n: Node, d: Addr) {
    d in n.table && n.table[d].flags.Up?
  }

  // ---- Broadcast id cache ----

  /** id_get: position of the cached request. */
  function FindId(ids: seq<BroadcastId>, src: Addr, id: nat): (r: Option<nat>)
    ensures r.Some? ==> r.value < |ids| && ids[r.value].src == src && ids[r.value].id == id
    ensures r.Some? ==> forall k | 0 <= k < r.value :: ids[k].src != src || ids[k].id != id
    ensures r.None? ==> forall k | 0 <= k < |ids| :: ids[k].src != src || ids[k].id != id
  {
    if ids == [] then None
    else if ids[0].src == src && ids[0].id == id then Some(0)
    else match FindId(ids[1..], src, id) case None => None case Some(k) => Some(k + 1)
  }

  function CacheId(n: Node, src: Addr, id: nat, now: real): Node {
    if FindId(n.ids, src, id).Some? then n
    else n.(ids := [BroadcastId(src, id, now + BCAST_ID_SAVE, 0)] + n.ids)
  }

  /** b->count = 1 */
  function MarkReplied(n: Node, k: nat): Node
    requires k < |n.ids|
  {
    n.(ids := n.ids[k := n.ids[k].(count := 1)])
  }

  function LiveIds(ids: seq<BroadcastId>, now: real): (r: seq<BroadcastId>)
    ensures |r| <= |ids|
    ensures forall b :: b in r <==> b in ids && now < b.expire
  {
    if ids == [] then []
    else if ids[0].expire <= now then LiveIds(ids[1..], now)
    else [ids[0]] + LiveIds(ids[1..], now)
  }

  function IdPurge(n: Node, now: real): Node {
    n.(ids := LiveIds(n.ids, now))
  }

  // ---- Data packets ----

  /** forward() of a data packet along the route to `d`. The empty-list case is a null
      dereference in the code; NodeInvariant.dfy proves it never arises for an UP route. */
  function Forward(n: Node, d: Addr, p: Pkt, now: real): (r: Node)
    requires d in n.table
    ensures r.table.Keys == n.table.Keys
  {
    if p.ttl == 0 then n.(out := n.out + [Dropped(p)])
    else if p.dst == n.id then n.(out := n.out + [Deliver(p)])
    else
      var e := n.table[d];
      if e.paths == [] then n
      else
        var e1 := TouchHead(e, now);
        var e2 := if p.src != n.id && p.isData then e1.(rtError := true) else e1;
        Put(n, d, e2).(out := n.out + [Transmit(p.(nexthop := e.paths[0].nexthop))])
  }

  /** while ((p = rqueue.deque(dst))) forward(rt, p) */
  function Flush(n: Node, d: Addr, now: real): (r: Node)
    requires d in n.table
    ensures r.table.Keys == n.table.Keys
    decreases |n.buffer.q|
  {
    var (p, b) := Deque(n.buffer, d, now);
    if p.None? then n.(buffer := b) else Flush(Forward(n.(buffer := b), d, p.value, now), d, now)
  }

  /** while ((p = rqueue.deque(dst))) drop(p) */
  function Drain(n: Node, d: Addr, now: real): (r: Node)
    ensures r.table == n.table
    decreases |n.buffer.q|
  {
    var (p, b) := Deque(n.buffer, d, now);
    if p.None? then n.(buffer := b) else Drain(n.(buffer := b, out := n.out + [Dropped(p.value)]), d, now)
  }

  // ---- Sending ----

  function SendRequest(n: Node, d: Addr, now: real): (r: Node)
    requires d in n.table
    ensures r.table.Keys == n.table.Keys
  {
    var e := n.table[d];
    if e.flags.Up? || e.reqTimeout > now then n
    else if e.reqCnt > RREQ_RETRIES then Drain(Put(n, d, GiveUp(e, now)), d, now)
    else IssueRequest(n, d, NextAttempt(e, now))
  }

  /** The RREQ goes out; `e` is the entry after the attempt. */
  function IssueRequest(n: Node, d: Addr, e: Entry): (r: Node)
    requires d in n.table
    ensures r.table.Keys == n.table.Keys
  {
    var n1 := Put(n, d, e).(bid := n.bid + 1, seqno := n.seqno + 2);
    Emit(n1, Rreq(Request(n.id, e.reqTtl, 0, n.bid, d, e.seqno, n.id, n1.seqno, 0)))
  }

  function SendError(n: Node, dests: seq<(Addr, nat)>): Node {
    Emit(n, Rerr(Error(n.id, 1, dests)))
  }

  /** A route that has come up: its request state is reset and buffered packets go out. */
  function Settle(n: Node, d: Addr, now: real): (r: Node)
    requires d in n.table
    ensures r.table.Keys == n.table.Keys
  {
    if n.table[d].flags.Up? then Flush(Put(n, d, SoftReset(n.table[d])), d, now) else n
  }

  /** rt_resolve */
  function Resolve(n: Node, p: Pkt, now: real): Node {
    var n1 := EnsureEntry(n, p.dst);
    var e := n1.table[p.dst];
    if e.flags.Up? then Forward(n1, p.dst, p, now)
    else if p.src == n.id then SendRequest(n1.(buffer := Enque(n1.buffer, p, now)), p.dst, now)
    else
      var n2 := SendError(n1, [(p.dst, e.seqno)]);
      n2.(out := n2.out + [Dropped(p)])
  }

  /** recv() of a unicast data packet: the packet to route, or None when it has come back to its
      source or its TTL has run out. `isNew` is num_forwards() == 0. */
  function Admit(me: Addr, p: Pkt, isNew: bool): Option<Pkt> {
    if p.src == me then
      if isNew then Some(p.(salvage := 0, ttl := NETWORK_DIAMETER)) else None
    else if p.ttl - 1 == 0 then None
    else Some(p.(ttl := p.ttl - 1))
  }

  function RecvData(n: Node, p: Pkt, isNew: bool, now: real): Node {
    match Admit(n.id, p, isNew)
    case None => n.(out := n.out + [Dropped(p)])
    case Some(q) => Resolve(n, q, now)
  }

  // ---- Route requests ----

  function RecvRequest(n: Node, m: Request, now: real): Node {
    if m.src == n.id then n
    else
      var (n1, verdict) := AbsorbRequest(n, m, now);
      if verdict.Discard? then n1
      else FinishRequest(n1, m, verdict.hasPath, FindId(n.ids, m.src, m.bcastId).Some?, now)
  }

  function FinishRequest(n: Node, m: Request, hasPath: bool, dup: bool, now: real): Node
    requires m.src in n.table
  {
    AnswerRequest(Settle(n, m.src, now), m, hasPath, dup, now)
  }

  /** The request is cached and its reverse path learned. */
  function AbsorbRequest(n: Node, m: Request, now: real): (r: (Node, Verdict))
    ensures m.src in r.0.table
  {
    var n1 := EnsureEntry(CacheId(n, m.src, m.bcastId, now), m.src);
    var (e, verdict) := LearnReverse(n.cfg, n1.table[m.src], RequestOffer(n.id, m, now), m.dst == n.id);
    (Put(n1, m.src, e), verdict)
  }

  function RequestOffer(me: Addr, m: Request, now: real): Offer {
    Offer(m.ipSrc, m.srcSeqno, m.hopCount, if m.hopCount == 0 then me else m.firstHop, now + REV_ROUTE_LIFE)
  }

  /** Reply as the destination, reply from the route table, or pass the request on. */
  function AnswerRequest(n: Node, m: Request, hasPath: bool, dup: bool, now: real): Node
    requires m.src in n.table
  {
    if m.dst == n.id then ReplyAsDestination(n, m)
    else if IsUp(n, m.dst) && n.table[m.dst].seqno >= m.dstSeqno then
      if hasPath then ReplyFromTable(n, m, now) else n
    else if dup then n
    else Rebroadcast(n, m)
  }

  function ReplyAsDestination(n: Node, m: Request): Node {
    var s := if n.seqno < m.dstSeqno then m.dstSeqno + 1 else n.seqno;
    var s1 := if s % 2 != 0 then s + 1 else s;
    Emit(n.(seqno := s1),
         Rrep(Reply(m.ipSrc, n.id, m.src, NETWORK_DIAMETER, 0, n.id, s1, n.id, MY_ROUTE_TIMEOUT, m.bcastId, m.ipSrc)))
  }

  function ReplyFromTable(n: Node, m: Request, now: real): Node
    requires m.dst in n.table
  {
    match FindId(n.ids, m.src, m.bcastId)
    case None => n
    case Some(k) =>
      if n.ids[k].count != 0 || n.table[m.dst].paths == [] then n
      else
        var e := Advertise(n.table[m.dst]).(rtError := true);
        var n1 := Put(MarkReplied(n, k), m.dst, e);
        Emit(n1, Rrep(Reply(m.ipSrc, n.id, m.src, NETWORK_DIAMETER, HopField(e.adv), m.dst, e.seqno, n.id,
                            e.paths[0].expire - now, m.bcastId, e.paths[0].lasthop)))
  }

  function Rebroadcast(n: Node, m: Request): Node
    requires m.src in n.table
  {
    var asked := if m.dst in n.table then Max(n.table[m.dst].seqno, m.dstSeqno) else m.dstSeqno;
    var e := Advertise(n.table[m.src]);
    var n1 := Put(n, m.src, e);
    if m.ttl == 0 || e.paths == [] then n1
    else
      Emit(n1, Rreq(m.(ipSrc := n.id, dstSeqno := asked, hopCount := HopField(e.adv), firstHop := e.paths[0].lasthop)))
  }

  // ---- Route replies and hellos ----

  function RecvReply(n: Node, m: Reply, now: real): Node {
    if m.dst == n.id then n
    else
      var (n1, kept) := AbsorbReply(n, m, now);
      if kept then FinishReply(n1, m, now) else n1
  }

  /** What a kept reply leads to. */
  function FinishReply(n: Node, m: Reply, now: real): Node
    requires m.dst in n.table
  {
    var n1 := Settle(n, m.dst, now);
    if m.ipDst == n.id then n1 else RelayReply(n1, m, now)
  }

  /** The forward path of a reply is learned. */
  function AbsorbReply(n: Node, m: Reply, now: real): (r: (Node, bool))
    ensures m.dst in r.0.table
  {
    var n1 := EnsureEntry(n, m.dst);
    var (e, kept) := LearnForward(n.cfg, n1.table[m.dst], ReplyOffer(m, now));
    (Put(n1, m.dst, e), kept)
  }

  function ReplyOffer(m: Reply, now: real): Offer {
    Offer(m.rpSrc, m.dstSeqno, m.hopCount, m.firstHop, now + m.lifetime)
  }

  function RelayReply(n: Node, m: Reply, now: real): Node
    requires m.dst in n.table
  {
    match FindId(n.ids, m.ipDst, m.bcastId)
    case None => n
    case Some(k) =>
      if !IsUp(n, m.ipDst) || n.ids[k].count != 0 || n.table[m.ipDst].paths == [] || n.table[m.dst].paths == [] then n
      else
        var e := Advertise(n.table[m.dst]).(rtError := true);
        var n1 := Put(MarkReplied(n, k), m.dst, e);
        EmitRelay(Put(n1, m.ipDst, TouchHead(n1.table[m.ipDst], now)), m, e)
  }

  /** The reply leaves along the preferred reverse path, carrying route `e`. */
  function EmitRelay(n: Node, m: Reply, e: Entry): Node
    requires m.ipDst in n.table && n.table[m.ipDst].paths != [] && e.paths != []
  {
    if m.ttl == 0 then n
    else
      Emit(n, Rrep(m.(nextHop := n.table[m.ipDst].paths[0].nexthop, rpSrc := n.id, hopCount := HopField(e.adv),
                      firstHop := e.paths[0].lasthop)))
  }

  /** A HELLO is processed as a reply from the neighbour about itself. */
  function HelloReply(me: Addr, m: Greeting): Reply {
    Reply(me, m.ipSrc, me, m.ttl, 0, m.dst, m.dstSeqno, m.ipSrc, m.lifetime, 0, me)
  }

  function FindNeighbor(nbrs: seq<Neighbor>, a: Addr): (r: Option<nat>)
    ensures r.Some? ==> r.value < |nbrs| && nbrs[r.value].addr == a
    ensures r.Some? ==> forall k | 0 <= k < r.value :: nbrs[k].addr != a
    ensures r.None? ==> forall k | 0 <= k < |nbrs| :: nbrs[k].addr != a
  {
    if nbrs == [] then None
    else if nbrs[0].addr == a then Some(0)
    else match FindNeighbor(nbrs[1..], a) case None => None case Some(k) => Some(k + 1)
  }

  function HearNeighbor(n: Node, a: Addr, now: real): Node {
    match FindNeighbor(n.nbrs, a)
    case None => n.(nbrs := [Neighbor(a, now + HELLO_INTERVAL * ALLOWED_HELLO_LOSS)] + n.nbrs)
    case Some(k) => n.(nbrs := n.nbrs[k := n.nbrs[k].(expire := now + 1.5 * ALLOWED_HELLO_LOSS * HELLO_INTERVAL)])
  }

  function RecvHello(n: Node, m: Greeting, now: real): Node {
    RecvReply(HearNeighbor(n, m.dst, now), HelloReply(n.id, m), now)
  }

  function SendHello(n: Node): Node {
    Emit(n, Hello(Greeting(n.id, 1, n.id, n.seqno, (1.0 + ALLOWED_HELLO_LOSS) * HELLO_INTERVAL)))
  }

  predicate HasActiveRoute(n: Node) {
    exists d | d in n.table :: n.table[d].flags.Up?
  }

  function HelloTimer(n: Node): Node {
    if HasActiveRoute(n) then SendHello(n) else n
  }

  // ---- Errors and link failures ----

  /** The loop of recvError, with the notices collected for this node's own RERR. */
  function ErrorAll(n: Node, from: Addr, dests: seq<(Addr, nat)>): (Node, seq<(Addr, nat)>)
    decreases |dests|
  {
    if dests == [] then (n, [])
    else
      var last := |dests| - 1;
      var (n1, told) := ErrorAll(n, from, dests[..last]);
      var (d, s) := dests[last];
      if d !in n1.table then (n1, told)
      else
        var e := ErrorRoute(n1.table[d], from, s);
        (Put(n1, d, e), told + Notice(n1.table[d], e))
  }

  function RecvError(n: Node, m: Error): Node {
    var (n1, told) := ErrorAll(n, m.ipSrc, m.dests);
    if told == [] then n1 else SendError(n1, told)
  }

  /** The loop of handle_link_failure over the entries `ds`. */
  function FailAll(n: Node, id: Addr, ds: seq<Addr>): (Node, seq<(Addr, nat)>)
    decreases |ds|
  {
    if ds == [] then (n, [])
    else
      var last := |ds| - 1;
      var (n1, told) := FailAll(n, id, ds[..last]);
      var d := ds[last];
      if d !in n1.table then (n1, told)
      else
        var e := FailRoute(n1.table[d], id);
        (Put(n1, d, e), told + Notice(n1.table[d], e))
  }

  /** handle_link_failure */
  function LinkFailure(n: Node, id: Addr): Node {
    var (n1, told) := FailAll(n, id, n.order);
    if told == [] then n1 else SendError(n1, told)
  }

  // ---- Neighbours ----

  /** PriQueue::filter(id): position of the first queued packet whose next hop is `id`. */
  function FindNextHop(q: seq<Pkt>, id: Addr): (r: Option<nat>)
    ensures r.Some? ==> r.value < |q| && q[r.value].nexthop == id
    ensures r.Some? ==> forall k | 0 <= k < r.value :: q[k].nexthop != id
    ensures r.None? ==> forall k | 0 <= k < |q| :: q[k].nexthop != id
  {
    if q == [] then None
    else if q[0].nexthop == id then Some(0)
    else match FindNextHop(q[1..], id) case None => None case Some(k) => Some(k + 1)
  }

  /** One packet taken out of the interface queue: sent along another path, or dropped. */
  function SalvageOne(n: Node, p: Pkt, now: real): Node {
    if p.isData && IsUp(n, p.dst) && p.salvage < MAX_SALVAGE_COUNT
    then Forward(n, p.dst, p.(salvage := p.salvage + 1), now)
    else n.(out := n.out + [Dropped(p)])
  }

  /** while ((p = ifqueue->filter(id))) salvage p */
  function Salvage(n: Node, id: Addr, now: real): Node
    decreases |n.ifq|
  {
    match FindNextHop(n.ifq, id)
    case None => n
    case Some(k) => Salvage(SalvageOne(n.(ifq := RemoveAt(n.ifq, k)), n.ifq[k], now), id, now)
  }

  function WithoutNeighbor(nbrs: seq<Neighbor>, a: Addr): seq<Neighbor> {
    match FindNeighbor(nbrs, a)
    case None => nbrs
    case Some(k) => nbrs[..k] + nbrs[k + 1..]
  }

  /** nb_delete */
  function LoseNeighbor(n: Node, a: Addr, now: real): Node {
    Salvage(LinkFailure(n.(seqno := n.seqno + 2, nbrs := WithoutNeighbor(n.nbrs, a)), a), a, now)
  }

  /** The loop of nb_purge over the neighbours `nbrs`, as they were when the purge began. */
  function LoseExpired(n: Node, nbrs: seq<Neighbor>, now: real): Node
    decreases |nbrs|
  {
    if nbrs == [] then n
    else
      var last := |nbrs| - 1;
      var n1 := LoseExpired(n, nbrs[..last], now);
      if nbrs[last].expire <= now then LoseNeighbor(n1, nbrs[last].addr, now) else n1
  }

  function NbPurge(n: Node, now: real): Node {
    LoseExpired(n, n.nbrs, now)
  }

  // ---- Route purge ----

  /** One turn of the loop of rt_purge. */
  function PurgeRoute(n: Node, d: Addr, now: real): Node {
    if d !in n.table then n
    else
      var e := n.table[d];
      if e.flags.Up? && e.expire < now then
        var e1 := ExpireRoute(e, now);
        if e1.flags.Down? then Drain(Put(n, d, e1), d, now) else Put(n, d, e1)
      else if e.flags.Up? then Flush(n, d, now)
      else if FindDst(n.buffer.q, d).Some? then SendRequest(n, d, now)
      else n
  }

  function PurgeRoutes(n: Node, ds: seq<Addr>, now: real): Node
    decreases |ds|
  {
    if ds == [] then n
    else
      var last := |ds| - 1;
      PurgeRoute(PurgeRoutes(n, ds[..last], now), ds[last], now)
  }

  function RtPurge(n: Node, now: real): Node {
    PurgeRoutes(n, n.order, now)
  }

  // ---- Events ----

  datatype Timer = HelloTime | IdTime | NeighborTime | RouteTime

  datatype Event =
    | Receive(m: Msg)
    | Data(p: Pkt, isNew: bool)
    | Queue(ifq: seq<Pkt>)      // the link layer has changed the interface queue
    | Tick(t: Timer)

  /** recv() takes one off the TTL before the message is handled. */
  function AfterHop(m: Msg): Msg {
    match m
    case Rreq(rq) => Rreq(rq.(ttl := rq.ttl - 1))
    case Rrep(rp) => Rrep(rp.(ttl := rp.ttl - 1))
    case Hello(hi) => Hello(hi.(ttl := hi.ttl - 1))
    case Rerr(re) => Rerr(re.(ttl := re.ttl - 1))
  }

  /** recvEAMRP */
  function HandleMessage(n: Node, m: Msg, now: real): Node {
    match m
    case Rreq(rq) => RecvRequest(n, rq, now)
    case Rrep(rp) => RecvReply(n, rp, now)
    case Hello(hi) => RecvHello(n, hi, now)
    case Rerr(re) => RecvError(n, re)
  }

  function HandleTimer(n: Node, t: Timer, now: real): Node {
    match t
    case HelloTime => HelloTimer(n)
    case IdTime => IdPurge(n, now)
    case NeighborTime => NbPurge(n, now)
    case RouteTime => RtPurge(n, now)
  }

  function Handle(n: Node, ev: Event, now: real): Node {
    match ev
    case Receive(m) => HandleMessage(n, AfterHop(m), now)
    case Data(p, isNew) => RecvData(n, p, isNew, now)
    case Queue(ifq) => n.(ifq := ifq)
    case Tick(t) => HandleTimer(n, t, now)
  }
}

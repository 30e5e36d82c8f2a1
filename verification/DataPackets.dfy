/** What becomes of data packets: a packet with a route is sent along it, a packet without one waits or is refused, and
    the packets that wait leave when their route comes up. */
module DataPackets {
  import opened Basics
  import opened Routes
  import opened Buffers
  import opened Nodes
  import opened NodeInvariant
  import opened NodeSteps
  import opened Network
  import opened Forwarding
  import opened Learning
  import opened Discovery
  import opened Asking
  import opened Waiting
  import opened LoopFreedom

  // ---- A packet arrives ----

  /** Packet `p` goes no further: it has come back to its source, or its TTL has run out. */
  predicate Refused(me: Addr, p: Pkt, isNew: bool) {
    if p.src == me then !isNew else p.ttl == 1
  }

  /** Packet `p` as it is routed. */
  function Admitted(me: Addr, p: Pkt): Pkt {
    if p.src == me then p.(salvage := 0, ttl := NETWORK_DIAMETER) else p.(ttl := p.ttl - 1)
  }

  /** With a route that is up, exactly that packet is sent, along the preferred path; the path stays alive, and after a
      data packet from elsewhere errors of the route will be reported. */
  ghost predicate SentAlong(n: Node, r: Node, q: Pkt, now: real) {
    && q.dst in n.table && q.dst in r.table && Used(n.table[q.dst], r.table[q.dst], n.id, [q], now)
    && r == n.(table := n.table[q.dst := r.table[q.dst]],
               out := n.out + [Transmit(q.(nexthop := n.table[q.dst].paths[0].nexthop))])
  }

  /** A packet from elsewhere without a route: one error message names its destination, and it is dropped. */
  ghost predicate TurnedAway(n: Node, r: Node, q: Pkt) {
    && r == n.(table := n.table[q.dst := Known(n, q.dst)], order := OrderWith(n, q.dst), said := r.said,
               out := n.out + [Send(Rerr(Error(n.id, 1, [(q.dst, Known(n, q.dst).seqno)]))), Dropped(q)])
  }

  /** The buffer after packet `q` has joined it: the aged packets have left, and the oldest if it was full. */
  function Joined(was: seq<Pkt>, q: Pkt, now: real): seq<Pkt> {
    var live := Live(was, now);
    (if |live| == RTQ_MAX_LEN then live[1..] else live) + [q.(deadline := now + RTQ_TIMEOUT)]
  }

  /** A packet of the node's own without a route joins the buffer, and a route is asked for. */
  ghost predicate MadeToWait(n: Node, r: Node, q: Pkt, now: real) {
    var n0 := n.(table := n.table[q.dst := Known(n, q.dst)], order := OrderWith(n, q.dst));
    exists n1: Node ::
      && n1 == n0.(buffer := n1.buffer)
      && n1.buffer.q == Joined(n.buffer.q, q, now)
      && Called(n1, r, q.dst, now)
  }

  /** What recv() makes of a unicast data packet. */
  ghost predicate DataHandled(n: Node, p: Pkt, isNew: bool, now: real, r: Node) {
    var q := Admitted(n.id, p);
    if Refused(n.id, p, isNew) then r == n.(out := n.out + [Dropped(p)])
    else if IsUp(n, p.dst) then SentAlong(n, r, q, now)
    else if p.src == n.id then MadeToWait(n, r, q, now)
    else TurnedAway(n, r, q)
  }

  lemma AlongRoute(n: Node, q: Pkt, now: real)
    requires IsUp(n, q.dst) && n.table[q.dst].paths != [] && q.dst != n.id && q.ttl != 0
    ensures SentAlong(n, Resolve(n, q, now), q, now)
  {
    ForwardExact(n, q.dst, q, now);
  }

  lemma WaitsForRoute(n: Node, q: Pkt, now: real)
    requires !IsUp(n, q.dst) && q.src == n.id
    ensures MadeToWait(n, Resolve(n, q, now), q, now)
  {
    var n0 := EnsureEntry(n, q.dst);
    var n1 := n0.(buffer := Enque(n0.buffer, q, now));
    assert n0.table == n.table[q.dst := Known(n, q.dst)];
    SendRequestExact(n1, q.dst, now);
    assert Called(n1, Resolve(n, q, now), q.dst, now);
  }

  lemma NoRoute(n: Node, q: Pkt, now: real)
    requires !IsUp(n, q.dst) && q.src != n.id
    ensures TurnedAway(n, Resolve(n, q, now), q)
  {
    var n0 := EnsureEntry(n, q.dst);
    assert n0.table == n.table[q.dst := Known(n, q.dst)];
    var m := Rerr(Error(n.id, 1, [(q.dst, Known(n, q.dst).seqno)]));
    assert n.out + [Send(m)] + [Dropped(q)] == n.out + [Send(m), Dropped(q)];
  }

  /** Every unicast data packet is refused, sent along its route, made to wait, or turned away. */
  lemma DataExact(n: Node, p: Pkt, isNew: bool, now: real, v: View)
    requires Good(n, v)
    ensures DataHandled(n, p, isNew, now, Handle(n, Data(p, isNew), now))
  {
    if !Refused(n.id, p, isNew) {
      var q := Admitted(n.id, p);
      assert Handle(n, Data(p, isNew), now) == Resolve(n, q, now);
      if IsUp(n, p.dst) {
        UpHasPath(n, p.dst, v);
        AlongRoute(n, q, now);
      } else if p.src == n.id {
        WaitsForRoute(n, q, now);
      } else {
        NoRoute(n, q, now);
      }
    }
  }

  /** The first packet for a destination never heard of waits for one network-wide request, which asks for any
      number. */
  lemma UnknownDestination(n: Node, p: Pkt, now: real, v: View)
    requires Good(n, v) && 0.0 <= now && p.src == n.id && p.dst !in n.table
    ensures var r := Handle(n, Data(p, true), now);
      && r.out == n.out + [Send(Rreq(Request(n.id, 30, 0, n.bid, p.dst, 0, n.id, n.seqno + 2, 0)))]
      && r.buffer.q == Joined(n.buffer.q, Admitted(n.id, p), now)
  {
    DataExact(n, p, true, now, v);
    var q, r := Admitted(n.id, p), Handle(n, Data(p, true), now);
    var n0 := n.(table := n.table[q.dst := Known(n, q.dst)], order := OrderWith(n, q.dst));
    var n1: Node :| n1 == n0.(buffer := n1.buffer) &&
                    n1.buffer.q == Joined(n.buffer.q, q, now) && Called(n1, r, q.dst, now);
  }

  /** A data packet is sent along a stored path, to a node strictly closer to its destination. */
  lemma DataDescends(net: Net, i: Addr, p: Pkt, isNew: bool, x: Pkt)
    requires Reachable(net) && i in net.nodes && Transmit(x) in After(net, i, Data(p, isNew)).out
    ensures x == Admitted(i, p).(nexthop := x.nexthop)
    ensures Edge(net, p.dst, i, x.nexthop) && x.nexthop in net.nodes && Closer(net, p.dst, i, x.nexthop)
  {
    var n := net.nodes[i];
    TransmitsOnce(net, i, p, isNew, x);
    assert n.table[p.dst].paths[0] in n.table[p.dst].paths;
    EdgeDescends(net, p.dst, i, x.nexthop);
  }

  lemma TransmitsOnce(net: Net, i: Addr, p: Pkt, isNew: bool, x: Pkt)
    requires Reachable(net) && i in net.nodes && Transmit(x) in After(net, i, Data(p, isNew)).out
    ensures var n := net.nodes[i];
      && IsUp(n, p.dst) && n.table[p.dst].paths != []
      && x == Admitted(i, p).(nexthop := n.table[p.dst].paths[0].nexthop)
  {
    ReachableSafe(net);
    var n := net.nodes[i];
    DataExact(n, p, isNew, net.now, ViewOf(net, i));
  }

  /** A packet made to wait is last in the buffer, due RTQ_TIMEOUT later, unless the call for its route gave up; then it
      is dropped with the others for its destination. */
  lemma WaitsOrDropped(n: Node, r: Node, q: Pkt, now: real)
    requires MadeToWait(n, r, q, now)
    ensures var e, b := Known(n, q.dst), Joined(n.buffer.q, q, now);
      if now < e.reqTimeout || e.reqCnt <= RREQ_RETRIES then r.buffer.q == b
      else r.buffer.q == StayingFor(b, q.dst, now) && r.out == n.out + DropAll(WaitingFor(b, q.dst, now))
    ensures var b := Joined(n.buffer.q, q, now);
      b[|b| - 1] == q.(deadline := now + RTQ_TIMEOUT) && b[|b| - 1] in WaitingFor(b, q.dst, now)
  {
    var b := Joined(n.buffer.q, q, now);
    assert b[|b| - 1] in b;
  }

  // ---- Packets wait for their own route only ----

  /** The node waits with its own packets only, and with a full TTL. */
  ghost predicate OwnWaiting(n: Node) {
    forall p | p in n.buffer.q :: p.src == n.id && p.ttl == NETWORK_DIAMETER
  }

  /** Nothing new waits. */
  ghost predicate NoneJoins(n: Node, r: Node) {
    r.id == n.id && forall p | p in r.buffer.q :: p in n.buffer.q
  }

  lemma SettleJoins(n: Node, d: Addr, now: real)
    requires d in n.table
    ensures NoneJoins(n, Settle(n, d, now))
  {
    FlushQuiet(Put(n, d, SoftReset(n.table[d])), d, now);
  }

  lemma RequestJoins(n: Node, m: Request, now: real)
    ensures NoneJoins(n, RecvRequest(n, m, now))
  {
    if m.src != n.id {
      var (n1, verdict) := AbsorbRequest(n, m, now);
      assert NoneJoins(n, n1);
      if verdict.Keep? {
        SettleJoins(n1, m.src, now);
        AnswerQuiet(Settle(n1, m.src, now), m, verdict.hasPath, FindId(n.ids, m.src, m.bcastId).Some?, now);
      }
    }
  }

  lemma RelayJoins(n: Node, m: Reply, now: real)
    requires m.dst in n.table
    ensures NoneJoins(n, RelayReply(n, m, now))
  {
  }

  lemma ReplyJoins(n: Node, m: Reply, now: real)
    ensures NoneJoins(n, RecvReply(n, m, now))
  {
    if m.dst != n.id {
      var (n1, kept) := AbsorbReply(n, m, now);
      assert NoneJoins(n, n1);
      if kept {
        SettleJoins(n1, m.dst, now);
        RelayJoins(Settle(n1, m.dst, now), m, now);
      }
    }
  }

  lemma ResolveJoins(n: Node, q: Pkt, now: real)
    requires OwnWaiting(n) && (q.src == n.id ==> q.ttl == NETWORK_DIAMETER)
    ensures OwnWaiting(Resolve(n, q, now))
  {
    var n1 := EnsureEntry(n, q.dst);
    if n1.table[q.dst].flags.Down? && q.src == n.id {
      var n2 := n1.(buffer := Enque(n1.buffer, q, now));
      assert OwnWaiting(n2);
      SendRequestQuiet(n2, q.dst, now);
    }
  }

  lemma MessageJoins(n: Node, m: Msg, now: real)
    ensures NoneJoins(n, HandleMessage(n, m, now))
  {
    match m
    case Rreq(rq) => RequestJoins(n, rq, now);
    case Rrep(rp) => ReplyJoins(n, rp, now);
    case Hello(hi) => ReplyJoins(HearNeighbor(n, hi.dst, now), HelloReply(n.id, hi), now);
    case Rerr(re) => ErrorAllQuiet(n, re.ipSrc, re.dests);
  }

  lemma TimerJoins(n: Node, t: Timer, now: real)
    ensures NoneJoins(n, HandleTimer(n, t, now))
  {
    match t
    case NeighborTime => LoseExpiredQuiet(n, n.nbrs, now);
    case RouteTime => PurgeRoutesQuiet(n, n.order, now);
    case IdTime =>
    case HelloTime =>
  }

  lemma HandleJoins(n: Node, ev: Event, now: real)
    requires OwnWaiting(n)
    ensures OwnWaiting(Handle(n, ev, now))
  {
    match ev
    case Receive(m) => MessageJoins(n, AfterHop(m), now);
    case Data(p, isNew) => match Admit(n.id, p, isNew) { case None => case Some(q) => ResolveJoins(n, q, now); }
    case Queue(ifq) =>
    case Tick(t) => TimerJoins(n, t, now);
  }

  lemma {:induction false} RunJoins(run: seq<Net>, acts: seq<(Addr, Event)>, k: nat, i: Addr)
    requires IsRun(run, acts) && k < |run| && i in run[k].nodes
    ensures OwnWaiting(run[k].nodes[i])
  {
    if k > 0 {
      assert StepAt(run, acts, k - 1);
      RunJoins(run, acts, k - 1, i);
      if i == acts[k - 1].0 { HandleJoins(run[k - 1].nodes[i], acts[k - 1].1, run[k - 1].now); }
    }
  }

  /** In every reachable state each buffered packet is the node's own, with its full TTL. */
  lemma OwnPacketsWait(net: Net, i: Addr)
    requires Reachable(net) && i in net.nodes
    ensures OwnWaiting(net.nodes[i])
  {
    var run: seq<Net>, acts: seq<(Addr, Event)> :| IsRun(run, acts) && run[|run| - 1] == net;
    RunJoins(run, acts, |run| - 1, i);
  }

  // ---- A route comes up ----

  /** Every packet that waited for `d` has been handed on along the preferred path, oldest first; no other data packet
      has been touched, and the others that have not aged still wait. */
  ghost predicate Releases(n: Node, r: Node, d: Addr, now: real) {
    && IsUp(r, d) && r.table[d].paths != []
    && DataOuts(r.out) == OnwardAll(n.id, r.table[d].paths[0].nexthop, WaitingFor(n.buffer.q, d, now))
    && r.buffer.q == StayingFor(n.buffer.q, d, now)
  }

  lemma OneMessage(outs: seq<Out>, outs': seq<Out>)
    requires SendsOne(outs, outs')
    ensures DataOuts(outs') == DataOuts(outs)
  {
    if outs' != outs {
      assert outs' == outs + [Send(outs'[|outs|].m)];
      DataOutsSend(outs, outs'[|outs|].m);
    }
  }

  lemma ReleasedOuts(n0: Node, n2: Node, d: Addr, now: real)
    requires n0.out == [] && Released(n0, n2, d, now)
    ensures DataOuts(n2.out) ==
            OnwardAll(n0.id, n2.table[d].paths[0].nexthop, WaitingFor(n0.buffer.q, d, now))
  {
    var hop, qs := n0.table[d].paths[0].nexthop, WaitingFor(n0.buffer.q, d, now);
    assert n2.out == OnwardAll(n0.id, hop, qs);
    OnwardOuts(n0.id, hop, qs);
  }

  /** The packets released on the way from `n0` to `n2` are all that a handler hands out that then answers. */
  lemma HandedOn(n: Node, n0: Node, n2: Node, r: Node, d: Addr, now: real)
    requires n0.out == [] && n0.id == n.id && n0.buffer == n.buffer && Released(n0, n2, d, now)
    requires r.buffer == n2.buffer && SendsOne(n2.out, r.out) && IsUp(r, d)
    requires r.table[d].paths != [] && r.table[d].paths[0].nexthop == n2.table[d].paths[0].nexthop
    ensures Releases(n, r, d, now)
  {
    ReleasedOuts(n0, n2, d, now);
    OneMessage(n2.out, r.out);
  }

  lemma ReleasesSame(n: Node, n1: Node, r: Node, d: Addr, now: real)
    requires n1.id == n.id && n1.buffer == n.buffer && Releases(n1, r, d, now)
    ensures Releases(n, r, d, now)
  {
  }

  /** A route that the node did not have comes up. */
  ghost predicate ComesUp(n: Node, r: Node, d: Addr) {
    !IsUp(n, d) && IsUp(r, d)
  }

  lemma OfferBringsUp(v: View, n: Node, d: Addr, e1: Entry, o: Offer)
    requires Good(n, v) && Learned(n.cfg, Known(n, d), e1, o) && e1.flags.Up? && !IsUp(n, d)
    ensures o.seqno % 2 == 0 && o.seqno >= 2 ==> Accepts(n.cfg, Known(n, d), o) && Known(n, d).seqno < o.seqno
  {
    if d in n.table { assert EntryOk(v, d, n.table[d]); }
  }

  lemma KeptReleases(n: Node, m: Request, hasPath: bool, now: real, e1: Entry, n2: Node, r: Node)
    requires KeptHandled(n, m, hasPath, now, e1, n2, r) && n.out == [] && IsUp(r, m.src)
    ensures Releases(n, r, m.src, now)
  {
    var n1 := n.(table := n.table[m.src := Reset(e1)], order := OrderWith(n, m.src), ids := IdsWith(n, m, now));
    HandedOn(n, n1, n2, r, m.src, now);
  }

  lemma AcceptedReleases(n: Node, m: Reply, now: real, e1: Entry, n2: Node, r: Node)
    requires AcceptedHandled(n, m, now, e1, n2, r) && n.out == [] && IsUp(r, m.dst)
    ensures Releases(n, r, m.dst, now)
  {
    HandedOn(n, n.(table := n.table[m.dst := Reset(e1)], order := OrderWith(n, m.dst)), n2, r, m.dst, now);
  }

  lemma RequestReleases(n: Node, m: Request, now: real, e1: Entry, n2: Node, r: Node, d: Addr)
    requires RequestHandled(n, m, now, e1, n2, r) && n.out == [] && ComesUp(n, r, d)
    requires d == m.src ==> Kept(n, m, now)
    ensures Releases(n, r, d, now)
  {
    if d == m.src {
      KeptReleases(n, m, BringsReverse(n.cfg, Known(n, m.src), Reverse(n.id, m, now)), now, e1, n2, r);
    } else {
      RequestElsewhere(n, m, now, e1, n2, r, d);
    }
  }

  lemma ReplyReleases(n: Node, m: Reply, now: real, e1: Entry, n2: Node, r: Node, d: Addr)
    requires ReplyHandled(n, m, now, e1, n2, r) && n.out == [] && ComesUp(n, r, d)
    requires d == m.dst ==> Accepts(n.cfg, Known(n, m.dst), Ahead(m, now))
    ensures Releases(n, r, d, now)
  {
    if d == m.dst { AcceptedReleases(n, m, now, e1, n2, r); } else { ReplyElsewhere(n, m, now, e1, n2, r, d); }
  }

  lemma RequestBringsUp(n: Node, m: Request, now: real, v: View, d: Addr)
    requires Good(n, v) && n.out == [] && m.src != n.id && ComesUp(n, RecvRequest(n, m, now), d)
    requires MsgOk(Rreq(m)) && MsgWithin(Rreq(m), v.own) && AdvertOf(Rreq(m)).value in v.log
    ensures Releases(n, RecvRequest(n, m, now), d, now)
  {
    var e1, n2 := RequestExact(n, m, now, v);
    if d == m.src { OfferBringsUp(v, n, d, e1, Reverse(n.id, m, now)); }
    RequestReleases(n, m, now, e1, n2, RecvRequest(n, m, now), d);
  }

  lemma ReplyBringsUp(n: Node, m: Reply, now: real, v: View, d: Addr)
    requires Good(n, v) && n.out == [] && m.dst != n.id && m.nextHop == n.id && ComesUp(n, RecvReply(n, m, now), d)
    requires MsgOk(Rrep(m)) && MsgWithin(Rrep(m), v.own) && AdvertOf(Rrep(m)).value in v.log
    ensures Releases(n, RecvReply(n, m, now), d, now)
  {
    var e1, n2 := ReplyExact(n, m, now, v);
    if d == m.dst { OfferBringsUp(v, n, d, e1, Ahead(m, now)); }
    ReplyReleases(n, m, now, e1, n2, RecvReply(n, m, now), d);
  }

  lemma HelloBringsUp(n: Node, m: Greeting, now: real, v: View, d: Addr)
    requires Good(n, v) && n.out == [] && ComesUp(n, RecvHello(n, m, now), d)
    requires MsgOk(Hello(m)) && MsgWithin(Hello(m), v.own) && AdvertOf(Hello(m)).value in v.log
    ensures Releases(n, RecvHello(n, m, now), d, now)
  {
    HearNeighborGood(n, m.dst, now, v);
    var n1 := HearNeighbor(n, m.dst, now);
    if m.dst != n.id {
      ReplyBringsUp(n1, HelloReply(n.id, m), now, v, d);
      ReleasesSame(n, n1, RecvReply(n1, HelloReply(n.id, m), now), d, now);
    }
  }

  lemma MessageBringsUp(n: Node, m: Msg, now: real, v: View, d: Addr)
    requires Good(n, v) && n.out == [] && ComesUp(n, HandleMessage(n, m, now), d)
    requires MsgOk(m) && MsgWithin(m, v.own) && Addressed(m, n.id) && Adverts(m) <= v.log
    ensures Releases(n, HandleMessage(n, m, now), d, now)
  {
    match m
    case Rreq(rq) => RequestBringsUp(n, rq, now, v, d);
    case Rrep(rp) => ReplyBringsUp(n, rp, now, v, d);
    case Hello(hi) => HelloBringsUp(n, hi, now, v, d);
    case Rerr(re) => ErrorAllQuiet(n, re.ipSrc, re.dests);
  }

  lemma ResolveBringsUp(n: Node, q: Pkt, now: real, d: Addr)
    ensures !ComesUp(n, Resolve(n, q, now), d)
  {
    var n1 := EnsureEntry(n, q.dst);
    SendRequestQuiet(n1.(buffer := Enque(n1.buffer, q, now)), q.dst, now);
  }

  lemma TimerBringsUp(n: Node, t: Timer, now: real, d: Addr)
    ensures !ComesUp(n, HandleTimer(n, t, now), d)
  {
    match t
    case NeighborTime => LoseExpiredQuiet(n, n.nbrs, now);
    case RouteTime => PurgeRoutesQuiet(n, n.order, now);
    case IdTime =>
    case HelloTime =>
  }

  /** Whatever brings a route up releases the packets that wait for it. */
  lemma HandleBringsUp(n: Node, ev: Event, now: real, v: View, d: Addr)
    requires Good(n, v) && n.out == [] && Possible(n, ev, v) && ComesUp(n, Handle(n, ev, now), d)
    ensures Releases(n, Handle(n, ev, now), d, now)
  {
    match ev
    case Receive(m) => MessageBringsUp(n, AfterHop(m), now, v, d);
    case Data(p, isNew) => match Admit(n.id, p, isNew) { case None => case Some(q) => ResolveBringsUp(n, q, now, d); }
    case Queue(ifq) =>
    case Tick(t) => TimerBringsUp(n, t, now, d);
  }

  lemma OwnOnward(n: Node, d: Addr, hop: Addr, now: real)
    requires OwnWaiting(n) && d != n.id
    ensures var qs := WaitingFor(n.buffer.q, d, now);
      var outs := OnwardAll(n.id, hop, qs);
      |outs| == |qs| && forall k | 0 <= k < |qs| :: outs[k] == Transmit(qs[k].(nexthop := hop))
  {
    var qs := WaitingFor(n.buffer.q, d, now);
    forall k | 0 <= k < |qs| ensures Onward(n.id, hop, qs[k]) == Transmit(qs[k].(nexthop := hop)) {
      assert qs[k] in qs;
    }
  }

  lemma ReleasesOnward(n: Node, r: Node, d: Addr, now: real, v: View)
    requires Good(n, v) && Good(r, v) && OwnWaiting(n) && Releases(n, r, d, now)
    ensures var qs, outs := WaitingFor(n.buffer.q, d, now), DataOuts(r.out);
      && |outs| == |qs|
      && (forall k | 0 <= k < |qs| :: outs[k] == Transmit(qs[k].(nexthop := r.table[d].paths[0].nexthop)))
  {
    UpHasPath(r, d, v);
    OwnOnward(n, d, r.table[d].paths[0].nexthop, now);
  }

  lemma EventPossible(net: Net, i: Addr, ev: Event)
    requires Reachable(net) && i in net.nodes && (ev.Receive? ==> Flight(ev.m, i) in net.air)
    ensures Good(net.nodes[i], ViewOf(net, i)) && net.nodes[i].out == [] && Possible(net.nodes[i], ev, ViewOf(net, i))
    ensures Good(After(net, i, ev), ViewOf(net, i))
  {
    ReachableSafe(net);
    if ev.Receive? { assert FlightOk(net, Flight(ev.m, i)); }
    HandleKeepsGood(net.nodes[i], ev, net.now, ViewOf(net, i));
  }

  /** When a route comes up in a reachable state, every packet that waited for it is transmitted along its preferred
      path, oldest first, and no other data packet is handed out; packets for other destinations stay. */
  lemma WaitingLeave(net: Net, i: Addr, ev: Event, d: Addr)
    requires Reachable(net) && i in net.nodes && (ev.Receive? ==> Flight(ev.m, i) in net.air)
    requires ComesUp(net.nodes[i], After(net, i, ev), d)
    ensures var n, r := net.nodes[i], After(net, i, ev);
      var qs, outs := WaitingFor(n.buffer.q, d, net.now), DataOuts(r.out);
      && r.table[d].paths != [] && |outs| == |qs|
      && (forall k | 0 <= k < |qs| :: outs[k] == Transmit(qs[k].(nexthop := r.table[d].paths[0].nexthop)))
      && r.buffer.q == StayingFor(n.buffer.q, d, net.now)
  {
    var n, r, v := net.nodes[i], After(net, i, ev), ViewOf(net, i);
    EventPossible(net, i, ev);
    OwnPacketsWait(net, i);
    HandleBringsUp(n, ev, net.now, v, d);
    ReleasesOnward(n, r, d, net.now, v);
  }
}

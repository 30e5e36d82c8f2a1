/** What rt_purge does for the packets that wait: route by route, which of them it hands out or drops, and which routes
    it asks for again. */
module RoutePurge {
  import opened Basics
  import opened Routes
  import opened Buffers
  import opened Nodes
  import opened NodeInvariant
  import opened NodeSteps
  import opened Network
  import opened Outbox
  import opened Forwarding
  import opened Discovery
  import opened Asking
  import opened Waiting

  // ---- What concerns one destination ----

  /** What has been done with data packets for `d`, in order. */
  function OutsFor(outs: seq<Out>, d: Addr): seq<Out> {
    if outs == [] then []
    else
      var last := |outs| - 1;
      OutsFor(outs[..last], d) + if !outs[last].Send? && outs[last].p.dst == d then [outs[last]] else []
  }

  lemma OutsForNext(outs: seq<Out>, o: Out, d: Addr)
    ensures OutsFor(outs + [o], d) == OutsFor(outs, d) + if !o.Send? && o.p.dst == d then [o] else []
  {
    assert (outs + [o])[..|outs|] == outs;
  }

  lemma SplitLast(outs: seq<Out>, done: seq<Out>)
    requires done != []
    ensures outs + done == (outs + done[..|done| - 1]) + [done[|done| - 1]]
  {
  }

  lemma {:induction false} OutsForAll(outs: seq<Out>, done: seq<Out>, d: Addr)
    requires forall o | o in done :: !o.Send? && o.p.dst == d
    ensures OutsFor(outs + done, d) == OutsFor(outs, d) + done
    decreases |done|
  {
    if done == [] {
      assert outs + done == outs;
    } else {
      var last := |done| - 1;
      OutsForAll(outs, done[..last], d);
      SplitLast(outs, done);
      OutsForNext(outs + done[..last], done[last], d);
      SplitLast(OutsFor(outs, d), done);
    }
  }

  lemma {:induction false} OutsForNone(outs: seq<Out>, done: seq<Out>, d: Addr)
    requires forall o | o in done :: o.Send? || o.p.dst != d
    ensures OutsFor(outs + done, d) == OutsFor(outs, d)
    decreases |done|
  {
    if done == [] {
      assert outs + done == outs;
    } else {
      var last := |done| - 1;
      OutsForNone(outs, done[..last], d);
      SplitLast(outs, done);
      OutsForNext(outs + done[..last], done[last], d);
    }
  }

  lemma DropsFor(outs: seq<Out>, q: seq<Pkt>, k: Addr, now: real, d: Addr)
    ensures var done := DropAll(WaitingFor(q, k, now));
      OutsFor(outs + done, d) == OutsFor(outs, d) + if k == d then done else []
  {
    var done := DropAll(WaitingFor(q, k, now));
    assert forall i | 0 <= i < |done| :: WaitingFor(q, k, now)[i] in WaitingFor(q, k, now);
    if k == d { OutsForAll(outs, done, d); } else { OutsForNone(outs, done, d); }
  }

  lemma OnwardFor(outs: seq<Out>, me: Addr, hop: Addr, q: seq<Pkt>, k: Addr, now: real, d: Addr)
    ensures var done := OnwardAll(me, hop, WaitingFor(q, k, now));
      OutsFor(outs + done, d) == OutsFor(outs, d) + if k == d then done else []
  {
    var done := OnwardAll(me, hop, WaitingFor(q, k, now));
    assert forall i | 0 <= i < |done| :: WaitingFor(q, k, now)[i] in WaitingFor(q, k, now);
    if k == d { OutsForAll(outs, done, d); } else { OutsForNone(outs, done, d); }
  }

  /** The requests for `d` that node `me` has started itself, in order. */
  function OwnFor(msgs: seq<Msg>, me: Addr, d: Addr): seq<Request> {
    if msgs == [] then []
    else
      var last := |msgs| - 1;
      OwnFor(msgs[..last], me, d) + if Own(msgs[last], me) && msgs[last].rq.dst == d then [msgs[last].rq] else []
  }

  lemma OwnForNext(outs: seq<Out>, m: Msg, me: Addr, d: Addr)
    ensures OwnFor(Sent(outs + [Send(m)]), me, d) ==
            OwnFor(Sent(outs), me, d) + if Own(m, me) && m.rq.dst == d then [m.rq] else []
  {
    SentAppend(outs, Send(m));
    assert (Sent(outs) + [m])[..|Sent(outs)|] == Sent(outs);
  }

  function OwnRequests(n: Node, d: Addr): seq<Request> {
    OwnFor(Sent(n.out), n.id, d)
  }

  // ---- One route ----

  /** What rt_purge does with the packets that wait for `d`: it hands them out if the route is up and not due, drops
      them if the route has run out of live paths or is given up, and leaves them otherwise. */
  function PurgeOuts(n: Node, d: Addr, now: real): seq<Out> {
    var qs := WaitingFor(n.buffer.q, d, now);
    if d !in n.table then []
    else if IsUp(n, d) then
      var e := n.table[d];
      if now <= e.expire then (if e.paths == [] then [] else OnwardAll(n.id, e.paths[0].nexthop, qs))
      else if exists p :: p in e.paths && now <= p.expire then []
      else DropAll(qs)
    else if n.table[d].reqTimeout <= now && RREQ_RETRIES < n.table[d].reqCnt then DropAll(qs)
    else []
  }

  /** The route to `d` is down, and sendRequest would ask for it. */
  predicate Askable(n: Node, d: Addr, now: real) {
    && d in n.table && n.table[d].flags.Down?
    && n.table[d].reqTimeout <= now && n.table[d].reqCnt <= RREQ_RETRIES
  }

  /** Request `rq` asks for `d`: with the TTL that is next, and the number the route has. */
  predicate AsksFor(n: Node, d: Addr, rq: Request) {
    && d in n.table && NextRing(n.table[d], rq.ttl) && rq.dstSeqno == n.table[d].seqno
    && rq.dst == d && rq.ipSrc == rq.src == n.id && rq.hopCount == 0
  }

  /** What rt_purge asks about `d`: nothing unless the route is askable and a packet for it is in the buffer, and one
      request if such a packet has not aged. */
  ghost predicate Asks(n: Node, d: Addr, now: real, asks: seq<Request>) {
    && |asks| <= 1
    && (asks != [] ==> Askable(n, d, now) && AsksFor(n, d, asks[0]) && exists p :: p in n.buffer.q && p.dst == d)
    && (Askable(n, d, now) && WaitingFor(n.buffer.q, d, now) != [] ==> asks != [])
  }

  /** Nothing that concerns `d` has been touched. */
  ghost predicate Untouched(n: Node, r: Node, d: Addr, now: real) {
    && r.id == n.id && (d in r.table <==> d in n.table) && (d in n.table ==> r.table[d] == n.table[d])
    && OutsFor(r.out, d) == OutsFor(n.out, d) && OwnRequests(r, d) == OwnRequests(n, d)
    && WaitingFor(r.buffer.q, d, now) == WaitingFor(n.buffer.q, d, now)
    && forall p | p in r.buffer.q :: p in n.buffer.q
  }

  /** The packets for `d` have been dealt with, and it has been asked for if need be. */
  ghost predicate Treated(n: Node, r: Node, d: Addr, now: real) {
    && r.id == n.id && OutsFor(r.out, d) == OutsFor(n.out, d) + PurgeOuts(n, d, now)
    && exists asks :: Asks(n, d, now, asks) && OwnRequests(r, d) == OwnRequests(n, d) + asks
  }

  lemma DrainUntouched(n: Node, k: Addr, now: real, d: Addr)
    requires k != d
    ensures Untouched(n, Drain(n, k, now), d, now)
  {
    DrainExact(n, k, now);
    DrainSent(n, k, now);
    DropsFor(n.out, n.buffer.q, k, now, d);
    WaitingOthers(n.buffer.q, k, d, now);
  }

  lemma FlushUntouched(n: Node, k: Addr, now: real, d: Addr)
    requires k != d && k in n.table && n.table[k].paths != []
    ensures Untouched(n, Flush(n, k, now), d, now)
  {
    FlushExact(n, k, now);
    FlushSent(n, k, now);
    OnwardFor(n.out, n.id, n.table[k].paths[0].nexthop, n.buffer.q, k, now, d);
    WaitingOthers(n.buffer.q, k, d, now);
  }

  lemma SendRequestUntouched(n: Node, k: Addr, now: real, d: Addr)
    requires k != d && k in n.table && n.table[k].flags.Down?
    ensures Untouched(n, SendRequest(n, k, now), d, now)
  {
    var e, r := n.table[k], SendRequest(n, k, now);
    SendRequestExact(n, k, now);
    if now < e.reqTimeout {
    } else if RREQ_RETRIES < e.reqCnt {
      DrainUntouched(Put(n, k, GiveUp(e, now)), k, now, d);
    } else {
      OutsForNone(n.out, [r.out[|n.out|]], d);
      OwnForNext(n.out, r.out[|n.out|].m, n.id, d);
    }
  }

  lemma PurgeRouteUntouched(n: Node, k: Addr, now: real, d: Addr, v: View)
    requires Good(n, v) && k != d
    ensures Untouched(n, PurgeRoute(n, k, now), d, now)
  {
    if k in n.table {
      var e := n.table[k];
      if e.flags.Up? && e.expire < now {
        DrainUntouched(Put(n, k, ExpireRoute(e, now)), k, now, d);
      } else if e.flags.Up? {
        UpHasPath(n, k, v);
        FlushUntouched(n, k, now, d);
      } else if FindDst(n.buffer.q, k).Some? {
        SendRequestUntouched(n, k, now, d);
      }
    }
  }

  /** A turn that asks nothing. */
  lemma TreatedSilently(n: Node, r: Node, d: Addr, now: real)
    requires r.id == n.id && OutsFor(r.out, d) == OutsFor(n.out, d) + PurgeOuts(n, d, now)
    requires Sent(r.out) == Sent(n.out)
    requires Askable(n, d, now) ==> WaitingFor(n.buffer.q, d, now) == []
    ensures Treated(n, r, d, now)
  {
    assert Asks(n, d, now, []) && OwnRequests(r, d) == OwnRequests(n, d) + [];
  }

  lemma LiveLeft(e: Entry, now: real)
    ensures LivePaths(e.paths, now) == [] <==> forall p | p in e.paths :: p.expire < now
  {
    var live := LivePaths(e.paths, now);
    assert live == [] || live[0] in live;
  }

  lemma ExpiryTreats(n: Node, d: Addr, now: real)
    requires IsUp(n, d) && n.table[d].expire < now
    ensures Treated(n, PurgeRoute(n, d, now), d, now)
  {
    LiveLeft(n.table[d], now);
    if LivePaths(n.table[d].paths, now) == [] { RunsOut(n, d, now); } else { LivesOn(n, d, now); }
  }

  lemma RunsOut(n: Node, d: Addr, now: real)
    requires IsUp(n, d) && n.table[d].expire < now && LivePaths(n.table[d].paths, now) == []
    requires forall p | p in n.table[d].paths :: p.expire < now
    ensures Treated(n, PurgeRoute(n, d, now), d, now)
  {
    var n1 := Put(n, d, ExpireRoute(n.table[d], now));
    assert PurgeRoute(n, d, now) == Drain(n1, d, now);
    DrainExact(n1, d, now);
    DrainSent(n1, d, now);
    DropsFor(n.out, n.buffer.q, d, now, d);
    TreatedSilently(n, Drain(n1, d, now), d, now);
  }

  lemma LivesOn(n: Node, d: Addr, now: real)
    requires IsUp(n, d) && n.table[d].expire < now && LivePaths(n.table[d].paths, now) != []
    requires exists p :: p in n.table[d].paths && now <= p.expire
    ensures Treated(n, PurgeRoute(n, d, now), d, now)
  {
    var n1 := Put(n, d, ExpireRoute(n.table[d], now));
    assert PurgeRoute(n, d, now) == n1;
    assert OutsFor(n.out, d) + [] == OutsFor(n.out, d);
    TreatedSilently(n, n1, d, now);
  }

  lemma FlushTreats(n: Node, d: Addr, now: real)
    requires IsUp(n, d) && n.table[d].paths != [] && now <= n.table[d].expire
    ensures Treated(n, PurgeRoute(n, d, now), d, now)
  {
    FlushExact(n, d, now);
    FlushSent(n, d, now);
    OnwardFor(n.out, n.id, n.table[d].paths[0].nexthop, n.buffer.q, d, now, d);
    TreatedSilently(n, PurgeRoute(n, d, now), d, now);
  }

  lemma {:induction false} NoneFound(q: seq<Pkt>, d: Addr, now: real)
    requires forall k | 0 <= k < |q| :: q[k].dst != d
    ensures WaitingFor(q, d, now) == []
  {
    if q != [] { NoneFound(q[1..], d, now); }
  }

  lemma GivenUpOuts(n: Node, d: Addr, now: real)
    requires d in n.table && n.table[d].flags.Down? && n.table[d].reqTimeout <= now && RREQ_RETRIES < n.table[d].reqCnt
    ensures PurgeOuts(n, d, now) == DropAll(WaitingFor(n.buffer.q, d, now)) && !Askable(n, d, now)
  {
  }

  lemma GivingUpTreats(n: Node, r: Node, d: Addr, now: real)
    requires d in n.table && n.table[d].flags.Down? && n.table[d].reqTimeout <= now && RREQ_RETRIES < n.table[d].reqCnt
    requires r.id == n.id && r.out == n.out + DropAll(WaitingFor(n.buffer.q, d, now)) && Sent(r.out) == Sent(n.out)
    ensures Treated(n, r, d, now)
  {
    GivenUpOuts(n, d, now);
    DropsFor(n.out, n.buffer.q, d, now, d);
    TreatedSilently(n, r, d, now);
  }

  lemma AskingTreats(n: Node, r: Node, d: Addr, now: real)
    requires Askable(n, d, now) && FindDst(n.buffer.q, d).Some? && AskedFor(n, r, d, now)
    ensures Treated(n, r, d, now)
  {
    var m := r.out[|n.out|].m;
    OutsForNone(n.out, [Send(m)], d);
    OwnForNext(n.out, m, n.id, d);
    assert n.buffer.q[FindDst(n.buffer.q, d).value] in n.buffer.q;
    assert OutsFor(n.out, d) + [] == OutsFor(n.out, d);
    assert Asks(n, d, now, [m.rq]);
  }

  lemma CallTreats(n: Node, d: Addr, now: real)
    requires d in n.table && n.table[d].flags.Down? && FindDst(n.buffer.q, d).Some?
    ensures Treated(n, SendRequest(n, d, now), d, now)
  {
    var e, r := n.table[d], SendRequest(n, d, now);
    SendRequestExact(n, d, now);
    if now < e.reqTimeout {
      assert OutsFor(n.out, d) + [] == OutsFor(n.out, d);
      TreatedSilently(n, r, d, now);
    } else if RREQ_RETRIES < e.reqCnt {
      DrainSent(Put(n, d, GiveUp(e, now)), d, now);
      GivingUpTreats(n, r, d, now);
    } else {
      AskingTreats(n, r, d, now);
    }
  }

  lemma PurgeRouteTreats(n: Node, d: Addr, now: real, v: View)
    requires Good(n, v)
    ensures Treated(n, PurgeRoute(n, d, now), d, now)
  {
    assert OutsFor(n.out, d) + [] == OutsFor(n.out, d);
    if d !in n.table {
      TreatedSilently(n, n, d, now);
    } else if IsUp(n, d) {
      UpHasPath(n, d, v);
      if n.table[d].expire < now { ExpiryTreats(n, d, now); } else { FlushTreats(n, d, now); }
    } else if FindDst(n.buffer.q, d).Some? {
      CallTreats(n, d, now);
    } else {
      NoneFound(n.buffer.q, d, now);
      TreatedSilently(n, n, d, now);
    }
  }

  // ---- The loop ----

  lemma UntouchedTwice(n: Node, r: Node, t: Node, d: Addr, now: real)
    requires Untouched(n, r, d, now) && Untouched(r, t, d, now)
    ensures Untouched(n, t, d, now)
  {
  }

  lemma TreatedAfter(n: Node, r: Node, t: Node, d: Addr, now: real)
    requires Untouched(n, r, d, now) && Treated(r, t, d, now)
    ensures Treated(n, t, d, now)
  {
    var asks :| Asks(r, d, now, asks) && OwnRequests(t, d) == OwnRequests(r, d) + asks;
    assert Asks(n, d, now, asks);
  }

  lemma TreatedBefore(n: Node, r: Node, t: Node, d: Addr, now: real)
    requires Treated(n, r, d, now) && Untouched(r, t, d, now)
    ensures Treated(n, t, d, now)
  {
    var asks :| Asks(n, d, now, asks) && OwnRequests(r, d) == OwnRequests(n, d) + asks;
    assert OwnRequests(t, d) == OwnRequests(n, d) + asks;
  }

  /** What concerns `d` after some turns of the loop; `met` tells whether it has been met among them. */
  ghost predicate TurnsDone(n: Node, r: Node, d: Addr, now: real, met: bool) {
    if met then Treated(n, r, d, now) else Untouched(n, r, d, now)
  }

  lemma OneMoreTurn(n: Node, n1: Node, k: Addr, d: Addr, now: real, met: bool, v: View)
    requires Good(n1, v) && TurnsDone(n, n1, d, now, met) && (met ==> k != d)
    ensures TurnsDone(n, PurgeRoute(n1, k, now), d, now, met || k == d)
  {
    var r := PurgeRoute(n1, k, now);
    if k == d {
      PurgeRouteTreats(n1, d, now, v);
      TreatedAfter(n, n1, r, d, now);
    } else {
      PurgeRouteUntouched(n1, k, now, d, v);
      if met { TreatedBefore(n, n1, r, d, now); } else { UntouchedTwice(n, n1, r, d, now); }
    }
  }

  lemma {:induction false} PurgeRoutesTreat(n: Node, ds: seq<Addr>, now: real, d: Addr, v: View)
    requires Good(n, v) && forall i, j | 0 <= i < j < |ds| :: ds[i] != ds[j]
    ensures TurnsDone(n, PurgeRoutes(n, ds, now), d, now, d in ds)
    decreases |ds|
  {
    if ds != [] {
      var last := |ds| - 1;
      PurgeRoutesTreat(n, ds[..last], now, d, v);
      PurgeRoutesGood(n, ds[..last], now, v);
      assert ds == ds[..last] + [ds[last]];
      OneMoreTurn(n, PurgeRoutes(n, ds[..last], now), ds[last], d, now, d in ds[..last], v);
    }
  }

  /** rt_purge, for every destination: what becomes of the packets that wait for it, and whether it is asked for. */
  lemma RtPurgeTreats(n: Node, d: Addr, now: real, v: View)
    requires Good(n, v)
    ensures Treated(n, RtPurge(n, now), d, now)
  {
    PurgeRoutesTreat(n, n.order, now, d, v);
    if d !in n.order {
      assert OutsFor(n.out, d) + [] == OutsFor(n.out, d);
      assert Asks(n, d, now, []) && OwnRequests(RtPurge(n, now), d) == OwnRequests(n, d) + [];
    }
  }

  // ---- In the network ----

  lemma NoneWaitForUp(net: Net, i: Addr, d: Addr, now: real)
    requires Reachable(net) && i in net.nodes && IsUp(net.nodes[i], d)
    ensures WaitingFor(net.nodes[i].buffer.q, d, now) == []
  {
    var qs := WaitingFor(net.nodes[i].buffer.q, d, now);
    if qs != [] {
      NoPacketWaits(net, i, qs[0]);
    }
  }

  /** In a reachable state rt_purge hands no packet on: it drops those whose route is given up, leaves all others, and
      asks for each route that is down, is due, and has a packet waiting. */
  lemma RtPurgeAsks(net: Net, i: Addr, d: Addr)
    requires Reachable(net) && i in net.nodes && d in net.nodes[i].table
    ensures var n, r := net.nodes[i], After(net, i, Tick(RouteTime));
      && Asks(n, d, net.now, OwnRequests(r, d))
      && OutsFor(r.out, d) ==
         (if n.table[d].flags.Down? && n.table[d].reqTimeout <= net.now && RREQ_RETRIES < n.table[d].reqCnt
          then DropAll(WaitingFor(n.buffer.q, d, net.now)) else [])
  {
    var n, r := net.nodes[i], After(net, i, Tick(RouteTime));
    PurgeTreats(net, i, d);
    TreatedFresh(n, r, d, net.now);
    if IsUp(n, d) { NoneWaitForUp(net, i, d, net.now); }
  }

  lemma NodeSafe(net: Net, i: Addr)
    requires Reachable(net) && i in net.nodes
    ensures Good(net.nodes[i], ViewOf(net, i)) && net.nodes[i].out == []
  {
    ReachableSafe(net);
  }

  lemma AfterPurge(net: Net, i: Addr)
    requires i in net.nodes
    ensures After(net, i, Tick(RouteTime)) == RtPurge(net.nodes[i], net.now)
  {
  }

  lemma PurgeTreats(net: Net, i: Addr, d: Addr)
    requires Reachable(net) && i in net.nodes
    ensures net.nodes[i].out == [] && Treated(net.nodes[i], After(net, i, Tick(RouteTime)), d, net.now)
  {
    NodeSafe(net, i);
    RtPurgeTreats(net.nodes[i], d, net.now, ViewOf(net, i));
    AfterPurge(net, i);
  }

  lemma TreatedFresh(n: Node, r: Node, d: Addr, now: real)
    requires n.out == [] && Treated(n, r, d, now)
    ensures Asks(n, d, now, OwnRequests(r, d)) && OutsFor(r.out, d) == PurgeOuts(n, d, now)
  {
    var asks :| Asks(n, d, now, asks) && OwnRequests(r, d) == OwnRequests(n, d) + asks;
    assert OwnRequests(r, d) == asks;
    assert OutsFor(r.out, d) == [] + PurgeOuts(n, d, now);
  }
}

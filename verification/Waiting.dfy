/** No packet waits for a usable route: at every handler boundary the buffer holds no packet
    whose destination has an UP route. */
module Waiting {
  import opened Basics
  import opened Routes
  import opened Buffers
  import opened Nodes
  import opened NodeInvariant
  import opened NodeSteps
  import opened Network

  ghost predicate NoneWaiting(n: Node) {
    forall p | p in n.buffer.q :: !IsUp(n, p.dst)
  }

  /** No route comes up and nothing enters the buffer. */
  ghost predicate Quiet(n: Node, r: Node) {
    && r.id == n.id && r.cfg == n.cfg
    && (forall d | IsUp(r, d) :: IsUp(n, d))
    && (forall p | p in r.buffer.q :: p in n.buffer.q)
  }

  lemma QuietTransitive(n: Node, r: Node, t: Node)
    requires Quiet(n, r) && Quiet(r, t)
    ensures Quiet(n, t)
  {
    forall d | IsUp(t, d) ensures IsUp(n, d) {
      assert IsUp(r, d);
    }
  }

  lemma {:induction false} FlushQuiet(n: Node, d: Addr, now: real)
    requires d in n.table
    ensures Quiet(n, Flush(n, d, now))
    ensures forall p | p in Flush(n, d, now).buffer.q :: p.dst != d
    decreases |n.buffer.q|
  {
    var (p, b) := Deque(n.buffer, d, now);
    if p.Some? {
      var n1 := Forward(n.(buffer := b), d, p.value, now);
      FlushQuiet(n1, d, now);
      QuietTransitive(n, n1, Flush(n1, d, now));
    }
  }

  lemma {:induction false} DrainQuiet(n: Node, d: Addr, now: real)
    ensures Quiet(n, Drain(n, d, now))
    decreases |n.buffer.q|
  {
    var (p, b) := Deque(n.buffer, d, now);
    if p.Some? {
      DrainQuiet(n.(buffer := b, out := n.out + [Dropped(p.value)]), d, now);
    }
  }

  lemma SendRequestQuiet(n: Node, d: Addr, now: real)
    requires d in n.table
    ensures Quiet(n, SendRequest(n, d, now))
  {
    DrainQuiet(Put(n, d, GiveUp(n.table[d], now)), d, now);
  }

  /** The route to `d` may be up while packets for it wait; settling it sends them out. */
  lemma SettleEmpties(n: Node, d: Addr, now: real)
    requires IsUp(n, d) && forall p | p in n.buffer.q && p.dst != d :: !IsUp(n, p.dst)
    ensures NoneWaiting(Settle(n, d, now))
  {
    FlushQuiet(Put(n, d, SoftReset(n.table[d])), d, now);
  }

  lemma AnswerQuiet(n: Node, m: Request, hasPath: bool, dup: bool, now: real)
    requires m.src in n.table
    ensures Quiet(n, AnswerRequest(n, m, hasPath, dup, now))
  {
  }

  lemma AbsorbRequestWaiting(n: Node, m: Request, now: real)
    requires NoneWaiting(n)
    ensures var (n1, verdict) := AbsorbRequest(n, m, now);
      && n1.buffer == n.buffer
      && (forall p | p in n1.buffer.q && p.dst != m.src :: !IsUp(n1, p.dst))
      && (verdict.Discard? ==> NoneWaiting(n1))
  {
  }

  lemma RecvRequestWaiting(n: Node, m: Request, now: real, v: View)
    requires Good(n, v) && NoneWaiting(n)
    requires MsgOk(Rreq(m)) && MsgWithin(Rreq(m), v.own) && AdvertOf(Rreq(m)).value in v.log
    ensures NoneWaiting(RecvRequest(n, m, now))
  {
    if m.src != n.id {
      AbsorbRequestWaiting(n, m, now);
      var (n1, verdict) := AbsorbRequest(n, m, now);
      if verdict.Keep? {
        AbsorbRequestGood(n, m, now, v);
        SettleEmpties(n1, m.src, now);
        var n2 := Settle(n1, m.src, now);
        AnswerQuiet(n2, m, verdict.hasPath, FindId(n.ids, m.src, m.bcastId).Some?, now);
      }
    }
  }

  lemma AbsorbReplyWaiting(n: Node, m: Reply, now: real)
    requires NoneWaiting(n)
    ensures var (n1, kept) := AbsorbReply(n, m, now);
      && n1.buffer == n.buffer
      && (forall p | p in n1.buffer.q && p.dst != m.dst :: !IsUp(n1, p.dst))
      && (!kept ==> NoneWaiting(n1))
  {
  }

  lemma FinishReplyWaiting(n: Node, m: Reply, now: real)
    requires IsUp(n, m.dst) && forall p | p in n.buffer.q && p.dst != m.dst :: !IsUp(n, p.dst)
    ensures NoneWaiting(Settle(n, m.dst, now))
    ensures NoneWaiting(RelayReply(Settle(n, m.dst, now), m, now))
  {
    SettleEmpties(n, m.dst, now);
    var n1 := Settle(n, m.dst, now);
  }

  lemma RecvReplyWaiting(n: Node, m: Reply, now: real, v: View)
    requires Good(n, v) && NoneWaiting(n) && MsgOk(Rrep(m)) && MsgWithin(Rrep(m), v.own)
    requires AdvertOf(Rrep(m)).value in v.log && m.nextHop == n.id
    ensures NoneWaiting(RecvReply(n, m, now))
  {
    if m.dst != n.id {
      AbsorbReplyWaiting(n, m, now);
      var (n1, kept) := AbsorbReply(n, m, now);
      if kept {
        assert IsUp(n1, m.dst) by { AbsorbReplyGood(n, m, now, v); }
        FinishReplyWaiting(n1, m, now);
      }
    }
  }

  lemma ResolveWaiting(n: Node, p: Pkt, now: real)
    requires NoneWaiting(n)
    ensures NoneWaiting(Resolve(n, p, now))
  {
    var n1 := EnsureEntry(n, p.dst);
    if n1.table[p.dst].flags.Down? && p.src == n.id {
      var n2 := n1.(buffer := Enque(n1.buffer, p, now));
      assert NoneWaiting(n2);
      SendRequestQuiet(n2, p.dst, now);
    }
  }

  lemma {:induction false} ErrorAllQuiet(n: Node, from: Addr, dests: seq<(Addr, nat)>)
    ensures Quiet(n, ErrorAll(n, from, dests).0)
    decreases |dests|
  {
    if dests != [] { ErrorAllQuiet(n, from, dests[..|dests| - 1]); }
  }

  lemma {:induction false} FailAllQuiet(n: Node, id: Addr, ds: seq<Addr>)
    ensures Quiet(n, FailAll(n, id, ds).0)
    decreases |ds|
  {
    if ds != [] { FailAllQuiet(n, id, ds[..|ds| - 1]); }
  }

  lemma {:induction false} SalvageQuiet(n: Node, id: Addr, now: real)
    ensures Quiet(n, Salvage(n, id, now))
    decreases |n.ifq|
  {
    var f := FindNextHop(n.ifq, id);
    if f.Some? {
      SalvageQuiet(SalvageOne(n.(ifq := RemoveAt(n.ifq, f.value)), n.ifq[f.value], now), id, now);
    }
  }

  lemma LoseNeighborQuiet(n: Node, a: Addr, now: real)
    ensures Quiet(n, LoseNeighbor(n, a, now))
  {
    var n1 := n.(seqno := n.seqno + 2, nbrs := WithoutNeighbor(n.nbrs, a));
    FailAllQuiet(n1, a, n1.order);
    var n2 := LinkFailure(n1, a);
    SalvageQuiet(n2, a, now);
    assert Quiet(n1, n2);
    QuietTransitive(n1, n2, Salvage(n2, a, now));
    QuietTransitive(n, n1, Salvage(n2, a, now));
  }

  lemma {:induction false} LoseExpiredQuiet(n: Node, nbrs: seq<Neighbor>, now: real)
    ensures Quiet(n, LoseExpired(n, nbrs, now))
    decreases |nbrs|
  {
    if nbrs != [] {
      var last := |nbrs| - 1;
      LoseExpiredQuiet(n, nbrs[..last], now);
      LoseNeighborQuiet(LoseExpired(n, nbrs[..last], now), nbrs[last].addr, now);
    }
  }

  lemma PurgeRouteQuiet(n: Node, d: Addr, now: real)
    ensures Quiet(n, PurgeRoute(n, d, now))
  {
    if d in n.table {
      DrainQuiet(Put(n, d, ExpireRoute(n.table[d], now)), d, now);
      FlushQuiet(n, d, now);
      SendRequestQuiet(n, d, now);
    }
  }

  lemma {:induction false} PurgeRoutesQuiet(n: Node, ds: seq<Addr>, now: real)
    ensures Quiet(n, PurgeRoutes(n, ds, now))
    decreases |ds|
  {
    if ds != [] {
      var last := |ds| - 1;
      PurgeRoutesQuiet(n, ds[..last], now);
      PurgeRouteQuiet(PurgeRoutes(n, ds[..last], now), ds[last], now);
    }
  }

  lemma MessageWaiting(n: Node, m: Msg, now: real, v: View)
    requires Good(n, v) && NoneWaiting(n)
    requires MsgOk(m) && MsgWithin(m, v.own) && Addressed(m, n.id) && Adverts(m) <= v.log
    ensures NoneWaiting(HandleMessage(n, m, now))
  {
    match m
    case Rreq(rq) => RecvRequestWaiting(n, rq, now, v);
    case Rrep(rp) => RecvReplyWaiting(n, rp, now, v);
    case Hello(hi) =>
      HearNeighborGood(n, hi.dst, now, v);
      RecvReplyWaiting(HearNeighbor(n, hi.dst, now), HelloReply(n.id, hi), now, v);
    case Rerr(re) => ErrorAllQuiet(n, re.ipSrc, re.dests);
  }

  lemma HandleWaiting(n: Node, ev: Event, now: real, v: View)
    requires Good(n, v) && NoneWaiting(n) && Possible(n, ev, v)
    ensures NoneWaiting(Handle(n, ev, now))
  {
    match ev
    case Receive(m) => MessageWaiting(n, AfterHop(m), now, v);
    case Data(p, isNew) => match Admit(n.id, p, isNew) { case None => case Some(q) => ResolveWaiting(n, q, now); }
    case Queue(ifq) =>
    case Tick(NeighborTime) => LoseExpiredQuiet(n, n.nbrs, now);
    case Tick(RouteTime) => PurgeRoutesQuiet(n, n.order, now);
    case Tick(IdTime) =>
    case Tick(HelloTime) =>
  }

  lemma StepWaiting(net: Net, net': Net, i: Addr, ev: Event)
    requires Safe(net) && Step(net, net', i, ev) && NoneWaiting(net.nodes[i])
    ensures NoneWaiting(net'.nodes[i])
  {
    if ev.Receive? { assert FlightOk(net, Flight(ev.m, i)); }
    HandleWaiting(net.nodes[i], ev, net.now, ViewOf(net, i));
  }

  lemma {:induction false} RunWaiting(run: seq<Net>, acts: seq<(Addr, Event)>, k: nat, i: Addr)
    requires IsRun(run, acts) && k < |run| && i in run[k].nodes
    ensures NoneWaiting(run[k].nodes[i])
  {
    if k > 0 {
      var (a, ev) := acts[k - 1];
      assert StepAt(run, acts, k - 1);
      RunWaiting(run, acts, k - 1, i);
      if i == a {
        RunSafe(run, acts, k - 1);
        StepWaiting(run[k - 1], run[k], a, ev);
      }
    }
  }

  /** In every reachable state, a buffered packet's destination has no usable route. */
  lemma NoPacketWaits(net: Net, i: Addr, p: Pkt)
    requires Reachable(net) && i in net.nodes && p in net.nodes[i].buffer.q
    ensures !IsUp(net.nodes[i], p.dst)
  {
    var run: seq<Net>, acts: seq<(Addr, Event)> :| IsRun(run, acts) && run[|run| - 1] == net;
    RunWaiting(run, acts, |run| - 1, i);
  }
}

/** What sendRequest does, exactly, and that no two requests of a node can be mistaken for each other. */
module Asking {
  import opened Basics
  import opened Routes
  import opened Buffers
  import opened Nodes
  import opened Network
  import opened Outbox
  import opened Forwarding
  import opened LoopFreedom

  // ---- One call ----

  /** The request is network-wide. */
  predicate GoesWide(e: Entry) {
    7 <= e.reqTtl || 7 <= e.lastHops
  }

  /** The TTL of the next request: the ring grows by 2 from the last TTL or the last known length of the route, from 5
      if there is neither, and after 7 the request is network-wide. */
  predicate NextRing(e: Entry, ttl: int) {
    if e.reqTtl == 0 && e.lastHops == 0 then ttl == 5
    else if !GoesWide(e) then ttl == Max(e.reqTtl, e.lastHops) + 2
    else ttl == 30
  }

  /** The wait after a request: twice its TTL times the time per hop, times the number of network-wide requests if there
      have been any, but at most a second. */
  ghost predicate NextWait(e: Entry, ttl: int, cnt: nat, wait: real) {
    var once := 2.0 * ttl as real * PerHopTime(e);
    var full := if cnt > 0 then once * cnt as real else once;
    wait == if full > 1.0 then 1.0 else full
  }

  /** Node `r` is node `n` after asking for a route to `d`. */
  ghost predicate AskedFor(n: Node, r: Node, d: Addr, now: real)
    requires d in n.table
  {
    && d in r.table
    && var e, e' := n.table[d], r.table[d];
       && e' == e.(reqTtl := e'.reqTtl, reqCnt := e'.reqCnt, reqTimeout := e'.reqTimeout, expire := 0.0)
       && NextRing(e, e'.reqTtl) && e'.reqCnt == e.reqCnt + (if GoesWide(e) then 1 else 0)
       && NextWait(e, e'.reqTtl, e'.reqCnt, e'.reqTimeout - now)
       && r == n.(table := n.table[d := e'], bid := n.bid + 1, seqno := n.seqno + 2, out := r.out, said := r.said)
       && r.out == n.out + [Send(Rreq(Request(n.id, e'.reqTtl, 0, n.bid, d, e.seqno, n.id, r.seqno, 0)))]
  }

  /** Node `r` is node `n` after giving a route to `d` up: its packets are dropped, and for a second nothing is
      asked. */
  ghost predicate GaveUpOn(n: Node, r: Node, d: Addr, now: real)
    requires d in n.table
  {
    && r == n.(table := n.table[d := n.table[d].(reqTimeout := now + 1.0, reqCnt := 0)], buffer := r.buffer,
               out := n.out + DropAll(WaitingFor(n.buffer.q, d, now)))
    && r.buffer.q == StayingFor(n.buffer.q, d, now)
  }

  /** What one call of sendRequest for a route that is down comes to. */
  ghost predicate Called(n: Node, r: Node, d: Addr, now: real)
    requires d in n.table
  {
    if now < n.table[d].reqTimeout then r == n
    else if RREQ_RETRIES < n.table[d].reqCnt then GaveUpOn(n, r, d, now)
    else AskedFor(n, r, d, now)
  }

  /** sendRequest waits, gives up, or sends one RREQ, with the number the route has, a new number of the node's own and
      a new broadcast id. */
  lemma SendRequestExact(n: Node, d: Addr, now: real)
    requires d in n.table && n.table[d].flags.Down?
    ensures Called(n, SendRequest(n, d, now), d, now)
  {
    var e := n.table[d];
    if e.reqTimeout > now {
    } else if e.reqCnt > RREQ_RETRIES {
      DrainExact(Put(n, d, GiveUp(e, now)), d, now);
    } else {
      IssueExact(n, d, now);
    }
  }

  lemma IssueExact(n: Node, d: Addr, now: real)
    requires d in n.table && n.table[d].flags.Down?
    ensures AskedFor(n, IssueRequest(n, d, NextAttempt(n.table[d], now)), d, now)
  {
    AttemptExact(n.table[d], now);
  }

  lemma WaitExact(e: Entry, ttl: nat, cnt: nat, now: real)
    ensures NextWait(e, ttl, cnt, NextTimeout(ttl, cnt, PerHopTime(e), now) - now)
  {
  }

  lemma AttemptExact(e: Entry, now: real)
    ensures var e' := NextAttempt(e, now);
      && e' == e.(reqTtl := e'.reqTtl, reqCnt := e'.reqCnt, reqTimeout := e'.reqTimeout, expire := 0.0)
      && NextRing(e, e'.reqTtl) && e'.reqCnt == e.reqCnt + (if GoesWide(e) then 1 else 0)
      && NextWait(e, e'.reqTtl, e'.reqCnt, e'.reqTimeout - now)
  {
    WaitExact(e, NextTtl(e), NextCount(e), now);
    AttemptSteps(e, now);
  }

  lemma AttemptSteps(e: Entry, now: real)
    ensures NextAttempt(e, now).reqTimeout == NextTimeout(NextTtl(e), NextCount(e), PerHopTime(e), now)
    ensures NextRing(e, NextTtl(e)) && NextCount(e) == e.reqCnt + (if GoesWide(e) then 1 else 0)
  {
  }

  // ---- Broadcast ids ----

  /** `m` is a request that node `me` has started itself. */
  predicate Own(m: Msg, me: Addr) {
    m.Rreq? && m.rq.src == me
  }

  /** The broadcast ids of the requests among `msgs` that node `me` has started itself, in order. */
  function OwnIds(msgs: seq<Msg>, me: Addr): seq<nat> {
    if msgs == [] then []
    else
      var last := |msgs| - 1;
      OwnIds(msgs[..last], me) + if Own(msgs[last], me) then [msgs[last].rq.bcastId] else []
  }

  function Range(a: nat, b: nat): seq<nat>
    requires a <= b
    decreases b
  {
    if a == b then [] else Range(a, b - 1) + [b - 1]
  }

  lemma {:induction false} RangeJoins(a: nat, b: nat, c: nat)
    requires a <= b <= c
    ensures Range(a, b) + Range(b, c) == Range(a, c)
    decreases c
  {
    if b < c { RangeJoins(a, b, c - 1); }
  }

  /** Node `n`, on its way to `r`, has started requests under the ids from its own next one on, one by one. */
  ghost predicate Issues(n: Node, r: Node) {
    && r.id == n.id && n.bid <= r.bid
    && OwnIds(Sent(r.out), n.id) == OwnIds(Sent(n.out), n.id) + Range(n.bid, r.bid)
  }

  lemma IssuesTwice(n: Node, r: Node, t: Node)
    requires Issues(n, r) && Issues(r, t)
    ensures Issues(n, t)
  {
    RangeJoins(n.bid, r.bid, t.bid);
  }

  /** Nothing is started. */
  ghost predicate IssuesNone(n: Node, r: Node) {
    r.id == n.id && r.bid == n.bid && OwnIds(Sent(r.out), n.id) == OwnIds(Sent(n.out), n.id)
  }

  lemma NoneIssues(n: Node, r: Node)
    requires IssuesNone(n, r)
    ensures Issues(n, r)
  {
    assert OwnIds(Sent(r.out), n.id) == OwnIds(Sent(n.out), n.id) + Range(n.bid, r.bid);
  }

  lemma HandIssues(n: Node, r: Node, o: Out)
    requires r.id == n.id && r.bid == n.bid && r.out == n.out + [o] && (o.Send? ==> !Own(o.m, n.id))
    ensures IssuesNone(n, r)
  {
    SentAppend(n.out, o);
    if o.Send? {
      assert (Sent(n.out) + [o.m])[..|Sent(n.out)|] == Sent(n.out);
    } else {
      assert Sent(n.out) + [] == Sent(n.out);
    }
  }

  lemma AskIssues(n: Node, r: Node, rq: Request)
    requires r.id == n.id && r.bid == n.bid + 1 && r.out == n.out + [Send(Rreq(rq))]
    requires rq.src == n.id && rq.bcastId == n.bid
    ensures Issues(n, r)
  {
    SentAppend(n.out, Send(Rreq(rq)));
    assert (Sent(n.out) + [Rreq(rq)])[..|Sent(n.out)|] == Sent(n.out);
    assert Range(n.bid, n.bid + 1) == [n.bid];
  }

  lemma ForwardIssues(n: Node, d: Addr, p: Pkt, now: real)
    requires d in n.table
    ensures IssuesNone(n, Forward(n, d, p, now))
  {
    ForwardSent(n, d, p, now);
  }

  lemma {:induction false} FlushIssues(n: Node, d: Addr, now: real)
    requires d in n.table
    ensures IssuesNone(n, Flush(n, d, now))
    decreases |n.buffer.q|
  {
    var (p, b) := Deque(n.buffer, d, now);
    if p.Some? {
      ForwardIssues(n.(buffer := b), d, p.value, now);
      FlushIssues(Forward(n.(buffer := b), d, p.value, now), d, now);
    }
  }

  lemma DrainIssues(n: Node, d: Addr, now: real)
    ensures IssuesNone(n, Drain(n, d, now))
  {
    DrainExact(n, d, now);
    DrainSent(n, d, now);
  }

  lemma SendRequestIssues(n: Node, d: Addr, now: real)
    requires d in n.table
    ensures Issues(n, SendRequest(n, d, now))
  {
    var e, r := n.table[d], SendRequest(n, d, now);
    if e.flags.Up? || e.reqTimeout > now {
      NoneIssues(n, r);
    } else if e.reqCnt > RREQ_RETRIES {
      DrainIssues(Put(n, d, GiveUp(e, now)), d, now);
      NoneIssues(n, r);
    } else {
      SendRequestExact(n, d, now);
      AskIssues(n, r, Request(n.id, r.table[d].reqTtl, 0, n.bid, d, e.seqno, n.id, r.seqno, 0));
    }
  }

  lemma ResolveIssues(n: Node, p: Pkt, now: real)
    ensures Issues(n, Resolve(n, p, now))
  {
    var n1 := EnsureEntry(n, p.dst);
    if n1.table[p.dst].flags.Up? {
      ForwardIssues(n1, p.dst, p, now);
      NoneIssues(n, Resolve(n, p, now));
    } else if p.src == n.id {
      SendRequestIssues(n1.(buffer := Enque(n1.buffer, p, now)), p.dst, now);
    } else {
      var n2 := SendError(n1, [(p.dst, n1.table[p.dst].seqno)]);
      HandIssues(n1, n2, n2.out[|n.out|]);
      HandIssues(n2, Resolve(n, p, now), Dropped(p));
      NoneIssues(n, Resolve(n, p, now));
    }
  }

  lemma SettleIssues(n: Node, d: Addr, now: real)
    requires d in n.table
    ensures IssuesNone(n, Settle(n, d, now))
  {
    FlushIssues(Put(n, d, SoftReset(n.table[d])), d, now);
  }

  lemma AnswerIssues(n: Node, m: Request, hasPath: bool, dup: bool, now: real)
    requires m.src in n.table && m.src != n.id
    ensures IssuesNone(n, AnswerRequest(n, m, hasPath, dup, now))
  {
    var r := AnswerRequest(n, m, hasPath, dup, now);
    if r.out != n.out { HandIssues(n, r, r.out[|n.out|]); }
  }

  lemma RecvRequestIssues(n: Node, m: Request, now: real)
    ensures IssuesNone(n, RecvRequest(n, m, now))
  {
    if m.src != n.id {
      var (n1, verdict) := AbsorbRequest(n, m, now);
      assert IssuesNone(n, n1);
      if verdict.Keep? {
        SettleIssues(n1, m.src, now);
        AnswerIssues(Settle(n1, m.src, now), m, verdict.hasPath, FindId(n.ids, m.src, m.bcastId).Some?, now);
      }
    }
  }

  lemma RelayIssues(n: Node, m: Reply, now: real)
    requires m.dst in n.table
    ensures IssuesNone(n, RelayReply(n, m, now))
  {
    var r := RelayReply(n, m, now);
    if r.out != n.out { HandIssues(n, r, r.out[|n.out|]); }
  }

  lemma RecvReplyIssues(n: Node, m: Reply, now: real)
    ensures IssuesNone(n, RecvReply(n, m, now))
  {
    if m.dst != n.id {
      var (n1, kept) := AbsorbReply(n, m, now);
      assert IssuesNone(n, n1);
      if kept {
        SettleIssues(n1, m.dst, now);
        RelayIssues(Settle(n1, m.dst, now), m, now);
      }
    }
  }

  lemma RecvErrorIssues(n: Node, m: Error)
    ensures IssuesNone(n, RecvError(n, m))
  {
    ErrorAllOnlyTable(n, m.ipSrc, m.dests);
    var (n1, told) := ErrorAll(n, m.ipSrc, m.dests);
    if told != [] { HandIssues(n1, RecvError(n, m), RecvError(n, m).out[|n1.out|]); }
  }

  lemma LinkFailureIssues(n: Node, id: Addr)
    ensures IssuesNone(n, LinkFailure(n, id))
  {
    FailAllOnlyTable(n, id, n.order);
    var (n1, told) := FailAll(n, id, n.order);
    if told != [] { HandIssues(n1, LinkFailure(n, id), LinkFailure(n, id).out[|n1.out|]); }
  }

  lemma SalvageOneIssues(n: Node, p: Pkt, now: real)
    ensures IssuesNone(n, SalvageOne(n, p, now))
  {
    if p.isData && IsUp(n, p.dst) && p.salvage < MAX_SALVAGE_COUNT {
      ForwardIssues(n, p.dst, p.(salvage := p.salvage + 1), now);
      assert SalvageOne(n, p, now) == Forward(n, p.dst, p.(salvage := p.salvage + 1), now);
    } else {
      HandIssues(n, n.(out := n.out + [Dropped(p)]), Dropped(p));
    }
  }

  lemma {:induction false} SalvageIssues(n: Node, id: Addr, now: real)
    ensures IssuesNone(n, Salvage(n, id, now))
    decreases |n.ifq|
  {
    var f := FindNextHop(n.ifq, id);
    if f.Some? {
      var n1 := n.(ifq := RemoveAt(n.ifq, f.value));
      SalvageOneIssues(n1, n.ifq[f.value], now);
      SalvageOneSent(n1, n.ifq[f.value], now);
      SalvageIssues(SalvageOne(n1, n.ifq[f.value], now), id, now);
    }
  }

  lemma LoseNeighborIssues(n: Node, a: Addr, now: real)
    ensures IssuesNone(n, LoseNeighbor(n, a, now))
  {
    var n1 := n.(seqno := n.seqno + 2, nbrs := WithoutNeighbor(n.nbrs, a));
    LinkFailureIssues(n1, a);
    SalvageIssues(LinkFailure(n1, a), a, now);
  }

  lemma {:induction false} LoseExpiredIssues(n: Node, nbrs: seq<Neighbor>, now: real)
    ensures IssuesNone(n, LoseExpired(n, nbrs, now))
    decreases |nbrs|
  {
    if nbrs != [] {
      var last := |nbrs| - 1;
      LoseExpiredIssues(n, nbrs[..last], now);
      LoseNeighborIssues(LoseExpired(n, nbrs[..last], now), nbrs[last].addr, now);
    }
  }

  lemma PurgeRouteIssues(n: Node, d: Addr, now: real)
    ensures Issues(n, PurgeRoute(n, d, now))
  {
    NoneIssues(n, n);
    if d in n.table {
      var e, r := n.table[d], PurgeRoute(n, d, now);
      if e.flags.Up? && e.expire < now {
        DrainIssues(Put(n, d, ExpireRoute(e, now)), d, now);
        NoneIssues(n, r);
      } else if e.flags.Up? {
        FlushIssues(n, d, now);
        NoneIssues(n, r);
      } else if FindDst(n.buffer.q, d).Some? {
        SendRequestIssues(n, d, now);
      }
    }
  }

  lemma {:induction false} PurgeRoutesIssues(n: Node, ds: seq<Addr>, now: real)
    ensures Issues(n, PurgeRoutes(n, ds, now))
    decreases |ds|
  {
    if ds == [] {
      NoneIssues(n, n);
    } else {
      var last := |ds| - 1;
      var n1 := PurgeRoutes(n, ds[..last], now);
      PurgeRoutesIssues(n, ds[..last], now);
      PurgeRouteIssues(n1, ds[last], now);
      IssuesTwice(n, n1, PurgeRoute(n1, ds[last], now));
    }
  }

  lemma MessageIssues(n: Node, m: Msg, now: real)
    ensures IssuesNone(n, HandleMessage(n, m, now))
  {
    match m
    case Rreq(rq) => RecvRequestIssues(n, rq, now);
    case Rrep(rp) => RecvReplyIssues(n, rp, now);
    case Hello(hi) => RecvReplyIssues(HearNeighbor(n, hi.dst, now), HelloReply(n.id, hi), now);
    case Rerr(re) => RecvErrorIssues(n, re);
  }

  lemma TimerIssues(n: Node, t: Timer, now: real)
    ensures Issues(n, HandleTimer(n, t, now))
  {
    var r := HandleTimer(n, t, now);
    match t
    case HelloTime =>
      if HasActiveRoute(n) { HandIssues(n, r, r.out[|n.out|]); }
      NoneIssues(n, r);
    case IdTime => NoneIssues(n, r);
    case NeighborTime => LoseExpiredIssues(n, n.nbrs, now); NoneIssues(n, r);
    case RouteTime => PurgeRoutesIssues(n, n.order, now);
  }

  /** Whatever a node handles, the requests it starts carry its next broadcast ids, one by one. */
  lemma HandleIssues(n: Node, ev: Event, now: real)
    ensures Issues(n, Handle(n, ev, now))
  {
    var r := Handle(n, ev, now);
    match ev
    case Receive(m) => MessageIssues(n, AfterHop(m), now); NoneIssues(n, r);
    case Data(p, isNew) =>
      match Admit(n.id, p, isNew) {
        case None => HandIssues(n, r, Dropped(p)); NoneIssues(n, r);
        case Some(q) => ResolveIssues(n, q, now);
      }
    case Queue(ifq) => NoneIssues(n, r);
    case Tick(t) => TimerIssues(n, t, now);
  }

  // ---- Over whole runs ----

  lemma {:induction false} RangeMember(a: nat, b: nat, x: nat)
    requires a <= b
    ensures x in Range(a, b) <==> a <= x < b
    decreases b
  {
    if a < b { RangeMember(a, b - 1, x); }
  }

  lemma {:induction false} OwnIdsMember(msgs: seq<Msg>, me: Addr, m: Msg)
    requires m in msgs && Own(m, me)
    ensures m.rq.bcastId in OwnIds(msgs, me)
  {
    var last := |msgs| - 1;
    if msgs[last] != m { OwnIdsMember(msgs[..last], me, m); }
  }

  /** Under ids one by one, no two requests share one. */
  lemma {:induction false} OwnIdsDiffer(msgs: seq<Msg>, me: Addr, a: nat, b: nat, m1: Msg, m2: Msg)
    requires a <= b && OwnIds(msgs, me) == Range(a, b)
    requires m1 in msgs && m2 in msgs && Own(m1, me) && Own(m2, me) && m1.rq.bcastId == m2.rq.bcastId
    ensures m1 == m2
  {
    var last := |msgs| - 1;
    if Own(msgs[last], me) {
      var ids := OwnIds(msgs, me);
      assert a < b && ids[|ids| - 1] == b - 1 == msgs[last].rq.bcastId;
      assert OwnIds(msgs[..last], me) == ids[..|ids| - 1] == Range(a, b - 1);
      RangeMember(a, b - 1, b - 1);
      if m1 != msgs[last] { OwnIdsMember(msgs[..last], me, m1); }
      if m2 != msgs[last] { OwnIdsMember(msgs[..last], me, m2); }
      if m1 != msgs[last] && m2 != msgs[last] { OwnIdsDiffer(msgs[..last], me, a, b - 1, m1, m2); }
    } else {
      OwnIdsDiffer(msgs[..last], me, a, b, m1, m2);
    }
  }

  /** The next broadcast id of node `i`. */
  function NextId(net: Net, i: Addr): nat {
    if i in net.nodes then net.nodes[i].bid else 0
  }

  lemma RunStepIssues(run: seq<Net>, acts: seq<(Addr, Event)>, k: nat)
    requires IsRun(run, acts) && k < |acts|
    ensures acts[k].0 in run[k].nodes && acts[k].0 in run[k + 1].nodes
    ensures forall i :: NextId(run[k], i) <= NextId(run[k + 1], i)
    ensures OwnIds(Sent(After(run[k], acts[k].0, acts[k].1).out), acts[k].0) ==
            Range(NextId(run[k], acts[k].0), NextId(run[k + 1], acts[k].0))
  {
    assert StepAt(run, acts, k);
    RunSafe(run, acts, k);
    HandleIssues(run[k].nodes[acts[k].0], acts[k].1, run[k].now);
  }

  lemma {:induction false} IdsGrow(run: seq<Net>, acts: seq<(Addr, Event)>, i: Addr, j: nat, k: nat)
    requires IsRun(run, acts) && j <= k < |run|
    ensures NextId(run[j], i) <= NextId(run[k], i)
    decreases k
  {
    if j < k {
      IdsGrow(run, acts, i, j, k - 1);
      RunStepIssues(run, acts, k - 1);
    }
  }

  lemma IssuedId(run: seq<Net>, acts: seq<(Addr, Event)>, k: nat, m: Msg)
    requires IsRun(run, acts) && Sends(run, acts, k, m) && Own(m, acts[k].0)
    ensures NextId(run[k], acts[k].0) <= m.rq.bcastId < NextId(run[k + 1], acts[k].0)
  {
    RunStepIssues(run, acts, k);
    OwnIdsMember(Sent(After(run[k], acts[k].0, acts[k].1).out), acts[k].0, m);
    RangeMember(NextId(run[k], acts[k].0), NextId(run[k + 1], acts[k].0), m.rq.bcastId);
  }

  /** Over a whole run, two requests that one node starts under one broadcast id are the same request, sent once. */
  lemma RequestIdsUnique(run: seq<Net>, acts: seq<(Addr, Event)>, k1: nat, m1: Msg, k2: nat, m2: Msg)
    requires IsRun(run, acts) && Sends(run, acts, k1, m1) && Sends(run, acts, k2, m2)
    requires acts[k1].0 == acts[k2].0 && Own(m1, acts[k1].0) && Own(m2, acts[k1].0) && m1.rq.bcastId == m2.rq.bcastId
    ensures k1 == k2 && m1 == m2
  {
    IssuedId(run, acts, k1, m1);
    IssuedId(run, acts, k2, m2);
    if k1 < k2 {
      IdsGrow(run, acts, acts[k1].0, k1 + 1, k2);
    } else if k2 < k1 {
      IdsGrow(run, acts, acts[k1].0, k2 + 1, k1);
    } else {
      RunStepIssues(run, acts, k1);
      var i := acts[k1].0;
      OwnIdsDiffer(Sent(After(run[k1], i, acts[k1].1).out), i, NextId(run[k1], i), NextId(run[k1 + 1], i), m1, m2);
    }
  }
}

/** The control messages among the packets a handler hands to the scheduler. */
module Outbox {
  import opened Basics
  import opened Routes
  import opened Buffers
  import opened Nodes

  /** The control messages in `outs`, in the order they were sent. */
  function Sent(outs: seq<Out>): (r: seq<Msg>)
    ensures forall m :: m in r <==> Send(m) in outs
  {
    if outs == [] then []
    else
      var last := |outs| - 1;
      Sent(outs[..last]) + if outs[last].Send? then [outs[last].m] else []
  }

  lemma SentAppend(outs: seq<Out>, o: Out)
    ensures Sent(outs + [o]) == Sent(outs) + if o.Send? then [o.m] else []
  {
    assert (outs + [o])[..|outs|] == outs;
  }

  lemma EmitSent(n: Node, m: Msg)
    ensures Sent(Emit(n, m).out) == Sent(n.out) + [m]
  {
    SentAppend(n.out, Send(m));
  }

  // ---- Handlers that send no control message ----

  lemma ForwardSent(n: Node, d: Addr, p: Pkt, now: real)
    requires d in n.table
    ensures Sent(Forward(n, d, p, now).out) == Sent(n.out)
  {
    SentAppend(n.out, Dropped(p));
    SentAppend(n.out, Deliver(p));
    if n.table[d].paths != [] {
      SentAppend(n.out, Transmit(p.(nexthop := n.table[d].paths[0].nexthop)));
    }
  }

  lemma {:induction false} FlushSent(n: Node, d: Addr, now: real)
    requires d in n.table
    ensures var r := Flush(n, d, now);
      Sent(r.out) == Sent(n.out) && r.ids == n.ids && r.id == n.id && r.seqno == n.seqno
    decreases |n.buffer.q|
  {
    var (p, b) := Deque(n.buffer, d, now);
    if p.Some? {
      ForwardSent(n.(buffer := b), d, p.value, now);
      FlushSent(Forward(n.(buffer := b), d, p.value, now), d, now);
    }
  }

  lemma SettleSent(n: Node, d: Addr, now: real)
    requires d in n.table
    ensures var r := Settle(n, d, now);
      Sent(r.out) == Sent(n.out) && r.ids == n.ids && r.id == n.id && r.seqno == n.seqno
  {
    FlushSent(Put(n, d, SoftReset(n.table[d])), d, now);
  }

  lemma {:induction false} DrainSent(n: Node, d: Addr, now: real)
    ensures Sent(Drain(n, d, now).out) == Sent(n.out) && Drain(n, d, now).ids == n.ids && Drain(n, d, now).id == n.id
    decreases |n.buffer.q|
  {
    var (p, b) := Deque(n.buffer, d, now);
    if p.Some? {
      SentAppend(n.out, Dropped(p.value));
      DrainSent(n.(buffer := b, out := n.out + [Dropped(p.value)]), d, now);
    }
  }

  lemma SalvageOneSent(n: Node, p: Pkt, now: real)
    ensures var r := SalvageOne(n, p, now);
      Sent(r.out) == Sent(n.out) && r.ids == n.ids && r.id == n.id && r.ifq == n.ifq
  {
    if p.isData && IsUp(n, p.dst) && p.salvage < MAX_SALVAGE_COUNT {
      ForwardSent(n, p.dst, p.(salvage := p.salvage + 1), now);
    } else {
      SentAppend(n.out, Dropped(p));
    }
  }

  lemma {:induction false} SalvageSent(n: Node, id: Addr, now: real)
    ensures Sent(Salvage(n, id, now).out) == Sent(n.out)
    ensures Salvage(n, id, now).ids == n.ids && Salvage(n, id, now).id == n.id
    decreases |n.ifq|
  {
    var f := FindNextHop(n.ifq, id);
    if f.Some? {
      var n1 := n.(ifq := RemoveAt(n.ifq, f.value));
      SalvageOneSent(n1, n.ifq[f.value], now);
      SalvageSent(SalvageOne(n1, n.ifq[f.value], now), id, now);
    }
  }

  /** The loops of recvError and handle_link_failure only change the table. */
  ghost predicate OnlyTable(n: Node, r: Node) {
    r == n.(table := r.table)
  }

  lemma {:induction false} ErrorAllOnlyTable(n: Node, from: Addr, dests: seq<(Addr, nat)>)
    ensures OnlyTable(n, ErrorAll(n, from, dests).0)
    decreases |dests|
  {
    if dests != [] { ErrorAllOnlyTable(n, from, dests[..|dests| - 1]); }
  }

  lemma {:induction false} FailAllOnlyTable(n: Node, id: Addr, ds: seq<Addr>)
    ensures OnlyTable(n, FailAll(n, id, ds).0)
    decreases |ds|
  {
    if ds != [] { FailAllOnlyTable(n, id, ds[..|ds| - 1]); }
  }

  // ---- Handlers that pass nothing on ----

  /** The cache is untouched, and the only messages sent are errors, HELLOs and the node's own requests. */
  ghost predicate PassesNothing(n: Node, r: Node) {
    && r.id == n.id && r.ids == n.ids
    && forall m | m in Sent(r.out) :: m in Sent(n.out) || m.Rerr? || m.Hello? || (m.Rreq? && m.rq.src == n.id)
  }

  lemma SendRequestPasses(n: Node, d: Addr, now: real)
    requires d in n.table
    ensures PassesNothing(n, SendRequest(n, d, now))
  {
    var e := n.table[d];
    if e.flags.Up? || e.reqTimeout > now {
    } else if e.reqCnt > RREQ_RETRIES {
      DrainSent(Put(n, d, GiveUp(e, now)), d, now);
    } else {
      IssuePasses(n, d, NextAttempt(e, now));
    }
  }

  lemma IssuePasses(n: Node, d: Addr, e: Entry)
    requires d in n.table
    ensures PassesNothing(n, IssueRequest(n, d, e))
  {
    var n1 := Put(n, d, e).(bid := n.bid + 1, seqno := n.seqno + 2);
    EmitSent(n1, Rreq(Request(n.id, e.reqTtl, 0, n.bid, d, e.seqno, n.id, n1.seqno, 0)));
  }

  lemma ResolvePasses(n: Node, p: Pkt, now: real)
    ensures PassesNothing(n, Resolve(n, p, now))
  {
    var n1 := EnsureEntry(n, p.dst);
    var e := n1.table[p.dst];
    if e.flags.Up? {
      ForwardSent(n1, p.dst, p, now);
    } else if p.src == n.id {
      SendRequestPasses(n1.(buffer := Enque(n1.buffer, p, now)), p.dst, now);
    } else {
      EmitSent(n1, Rerr(Error(n1.id, 1, [(p.dst, e.seqno)])));
      SentAppend(SendError(n1, [(p.dst, e.seqno)]).out, Dropped(p));
    }
  }

  lemma LinkFailurePasses(n: Node, id: Addr)
    ensures PassesNothing(n, LinkFailure(n, id))
  {
    FailAllOnlyTable(n, id, n.order);
    var (n1, told) := FailAll(n, id, n.order);
    if told != [] { EmitSent(n1, Rerr(Error(n1.id, 1, told))); }
  }

  lemma LoseNeighborPasses(n: Node, a: Addr, now: real)
    ensures PassesNothing(n, LoseNeighbor(n, a, now))
  {
    var n1 := n.(seqno := n.seqno + 2, nbrs := WithoutNeighbor(n.nbrs, a));
    LinkFailurePasses(n1, a);
    SalvageSent(LinkFailure(n1, a), a, now);
  }

  lemma {:induction false} LoseExpiredPasses(n: Node, nbrs: seq<Neighbor>, now: real)
    ensures PassesNothing(n, LoseExpired(n, nbrs, now))
    decreases |nbrs|
  {
    if nbrs != [] {
      var last := |nbrs| - 1;
      var n1 := LoseExpired(n, nbrs[..last], now);
      LoseExpiredPasses(n, nbrs[..last], now);
      LoseNeighborPasses(n1, nbrs[last].addr, now);
    }
  }

  lemma PurgeRoutePasses(n: Node, d: Addr, now: real)
    ensures PassesNothing(n, PurgeRoute(n, d, now))
  {
    if d in n.table {
      var e := n.table[d];
      if e.flags.Up? && e.expire < now {
        DrainSent(Put(n, d, ExpireRoute(e, now)), d, now);
      } else if e.flags.Up? {
        FlushSent(n, d, now);
      } else if FindDst(n.buffer.q, d).Some? {
        SendRequestPasses(n, d, now);
      }
    }
  }

  lemma {:induction false} PurgeRoutesPasses(n: Node, ds: seq<Addr>, now: real)
    ensures PassesNothing(n, PurgeRoutes(n, ds, now))
    decreases |ds|
  {
    if ds != [] {
      var last := |ds| - 1;
      var n1 := PurgeRoutes(n, ds[..last], now);
      PurgeRoutesPasses(n, ds[..last], now);
      PurgeRoutePasses(n1, ds[last], now);
    }
  }

  // ---- What receiving a message sends ----

  /** What can answer a request that `n` handles: nothing, one reply, or the request passed on. */
  ghost predicate Answers(n: Node, m: Request, msgs: seq<Msg>) {
    || msgs == []
    || (msgs == [msgs[0]] && msgs[0].Rrep? && msgs[0].rp.ttl == NETWORK_DIAMETER &&
        msgs[0].rp.ipDst == m.src && msgs[0].rp.bcastId == m.bcastId && msgs[0].rp.dst == m.dst)
    || (msgs == [msgs[0]] && msgs[0].Rreq? && msgs[0].rq.ttl == m.ttl && m.ttl != 0 &&
        msgs[0].rq.src == m.src && msgs[0].rq.bcastId == m.bcastId)
  }

  lemma AnswerSent(n: Node, m: Request, hasPath: bool, dup: bool, now: real) returns (msgs: seq<Msg>)
    requires m.src in n.table
    ensures Sent(AnswerRequest(n, m, hasPath, dup, now).out) == Sent(n.out) + msgs && Answers(n, m, msgs)
  {
    var r := AnswerRequest(n, m, hasPath, dup, now);
    if r.out == n.out {
      msgs := [];
    } else {
      msgs := [r.out[|n.out|].m];
      SentAppend(n.out, r.out[|n.out|]);
    }
  }

  lemma RecvRequestSent(n: Node, m: Request, now: real) returns (msgs: seq<Msg>)
    ensures Sent(RecvRequest(n, m, now).out) == Sent(n.out) + msgs && Answers(n, m, msgs)
  {
    msgs := [];
    if m.src != n.id {
      var (n1, verdict) := AbsorbRequest(n, m, now);
      assert n1.out == n.out;
      if verdict.Keep? {
        SettleSent(n1, m.src, now);
        msgs := AnswerSent(Settle(n1, m.src, now), m, verdict.hasPath, FindId(n.ids, m.src, m.bcastId).Some?, now);
      }
    }
  }

  /** What can follow a reply: nothing, or the reply passed on. */
  ghost predicate Relays(n: Node, m: Reply, msgs: seq<Msg>) {
    || msgs == []
    || (msgs == [msgs[0]] && msgs[0].Rrep? && msgs[0].rp.ttl == m.ttl && m.ttl != 0 && m.ipDst != n.id &&
        msgs[0].rp.ipDst == m.ipDst && msgs[0].rp.bcastId == m.bcastId && msgs[0].rp.dst == m.dst)
  }

  lemma RelaySent(n: Node, m: Reply, now: real) returns (msgs: seq<Msg>)
    requires m.dst in n.table && m.ipDst != n.id
    ensures Sent(RelayReply(n, m, now).out) == Sent(n.out) + msgs && Relays(n, m, msgs)
  {
    var r := RelayReply(n, m, now);
    if r.out == n.out {
      msgs := [];
    } else {
      msgs := [r.out[|n.out|].m];
      SentAppend(n.out, r.out[|n.out|]);
    }
  }

  lemma RecvReplySent(n: Node, m: Reply, now: real) returns (msgs: seq<Msg>)
    ensures Sent(RecvReply(n, m, now).out) == Sent(n.out) + msgs && Relays(n, m, msgs)
  {
    msgs := [];
    if m.dst != n.id {
      var (n1, kept) := AbsorbReply(n, m, now);
      assert n1.out == n.out;
      if kept {
        SettleSent(n1, m.dst, now);
        if m.ipDst != n.id { msgs := RelaySent(Settle(n1, m.dst, now), m, now); }
      }
    }
  }

  ghost predicate Reports(msgs: seq<Msg>) {
    msgs == [] || (msgs == [msgs[0]] && msgs[0].Rerr?)
  }

  lemma RecvErrorSent(n: Node, m: Error) returns (msgs: seq<Msg>)
    ensures Sent(RecvError(n, m).out) == Sent(n.out) + msgs && Reports(msgs)
  {
    ErrorAllOnlyTable(n, m.ipSrc, m.dests);
    var (n1, told) := ErrorAll(n, m.ipSrc, m.dests);
    if told == [] {
      msgs := [];
    } else {
      msgs := [Rerr(Error(n1.id, 1, told))];
      EmitSent(n1, msgs[0]);
    }
  }

  lemma RecvHelloSent(n: Node, m: Greeting, now: real)
    ensures Sent(RecvHello(n, m, now).out) == Sent(n.out)
  {
    var msgs := RecvReplySent(HearNeighbor(n, m.dst, now), HelloReply(n.id, m), now);
  }

  /** A received message causes at most one other. */
  ghost predicate Causes(n: Node, m: Msg, msgs: seq<Msg>) {
    match m
    case Rreq(rq) => Answers(n, rq, msgs)
    case Rrep(rp) => Relays(n, rp, msgs)
    case Hello(_) => msgs == []
    case Rerr(_) => Reports(msgs)
  }

  lemma MessageSent(n: Node, m: Msg, now: real) returns (msgs: seq<Msg>)
    ensures Sent(HandleMessage(n, m, now).out) == Sent(n.out) + msgs && Causes(n, m, msgs)
  {
    match m
    case Rreq(rq) => msgs := RecvRequestSent(n, rq, now);
    case Rrep(rp) => msgs := RecvReplySent(n, rp, now);
    case Hello(hi) => RecvHelloSent(n, hi, now); msgs := [];
    case Rerr(re) => msgs := RecvErrorSent(n, re);
  }
}

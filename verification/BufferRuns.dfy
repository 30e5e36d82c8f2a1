/** The packet buffers of a running network: whatever a node handles, its buffer goes through a series of queue
    calls and nothing else, so the laws of the buffer hold in every reachable state. */
module BufferRuns {
  import opened Basics
  import opened Routes
  import opened Buffers
  import opened Nodes
  import opened NodeInvariant
  import opened Network
  import opened Outbox
  import opened BufferLaws

  /** The buffer after a series of calls, all at time `now`. */
  function Calls(b: Buffer, ops: seq<Op>, now: real): Buffer {
    if ops == [] then b
    else
      var last := |ops| - 1;
      Apply(Calls(b, ops[..last], now), ops[last], now).1
  }

  lemma OneCall(b: Buffer, op: Op, now: real)
    ensures Calls(b, [op], now) == Apply(b, op, now).1
  {
    assert [op][..0] == [];
  }

  lemma {:induction false} CallsConcat(b: Buffer, first: seq<Op>, rest: seq<Op>, now: real)
    ensures Calls(b, first + rest, now) == Calls(Calls(b, first, now), rest, now)
    decreases |rest|
  {
    if rest == [] {
      assert first + rest == first;
    } else {
      var last := |rest| - 1;
      CallsConcat(b, first, rest[..last], now);
      assert (first + rest)[..|first + rest| - 1] == first + rest[..last];
    }
  }

  // ---- One handler ----

  lemma {:induction false} FlushCalls(n: Node, d: Addr, now: real) returns (ops: seq<Op>)
    requires d in n.table
    ensures Flush(n, d, now).buffer == Calls(n.buffer, ops, now)
    decreases |n.buffer.q|
  {
    var (p, b) := Deque(n.buffer, d, now);
    ops := [DequeOp(d)];
    OneCall(n.buffer, DequeOp(d), now);
    if p.Some? {
      var n1 := Forward(n.(buffer := b), d, p.value, now);
      assert n1.buffer == b;
      var rest := FlushCalls(n1, d, now);
      CallsConcat(n.buffer, ops, rest, now);
      ops := ops + rest;
    }
  }

  lemma {:induction false} DrainCalls(n: Node, d: Addr, now: real) returns (ops: seq<Op>)
    ensures Drain(n, d, now).buffer == Calls(n.buffer, ops, now)
    decreases |n.buffer.q|
  {
    var (p, b) := Deque(n.buffer, d, now);
    ops := [DequeOp(d)];
    OneCall(n.buffer, DequeOp(d), now);
    if p.Some? {
      var rest := DrainCalls(n.(buffer := b, out := n.out + [Dropped(p.value)]), d, now);
      CallsConcat(n.buffer, ops, rest, now);
      ops := ops + rest;
    }
  }

  lemma SettleCalls(n: Node, d: Addr, now: real) returns (ops: seq<Op>)
    requires d in n.table
    ensures Settle(n, d, now).buffer == Calls(n.buffer, ops, now)
  {
    if n.table[d].flags.Up? {
      ops := FlushCalls(Put(n, d, SoftReset(n.table[d])), d, now);
    } else {
      ops := [];
    }
  }

  lemma SendRequestCalls(n: Node, d: Addr, now: real) returns (ops: seq<Op>)
    requires d in n.table
    ensures SendRequest(n, d, now).buffer == Calls(n.buffer, ops, now)
  {
    var e := n.table[d];
    if e.flags.Down? && e.reqTimeout <= now && e.reqCnt > RREQ_RETRIES {
      ops := DrainCalls(Put(n, d, GiveUp(e, now)), d, now);
    } else {
      ops := [];
    }
  }

  lemma AnswerBuffer(n: Node, m: Request, hasPath: bool, dup: bool, now: real)
    requires m.src in n.table
    ensures AnswerRequest(n, m, hasPath, dup, now).buffer == n.buffer
  {
  }

  lemma RecvRequestCalls(n: Node, m: Request, now: real) returns (ops: seq<Op>)
    ensures RecvRequest(n, m, now).buffer == Calls(n.buffer, ops, now)
  {
    ops := [];
    if m.src != n.id {
      var (n1, verdict) := AbsorbRequest(n, m, now);
      assert n1.buffer == n.buffer;
      if verdict.Keep? {
        ops := SettleCalls(n1, m.src, now);
        AnswerBuffer(Settle(n1, m.src, now), m, verdict.hasPath, FindId(n.ids, m.src, m.bcastId).Some?, now);
      }
    }
  }

  lemma RecvReplyCalls(n: Node, m: Reply, now: real) returns (ops: seq<Op>)
    ensures RecvReply(n, m, now).buffer == Calls(n.buffer, ops, now)
  {
    ops := [];
    if m.dst != n.id {
      var (n1, kept) := AbsorbReply(n, m, now);
      assert n1.buffer == n.buffer;
      if kept {
        ops := SettleCalls(n1, m.dst, now);
      }
    }
  }

  lemma ResolveCalls(n: Node, p: Pkt, now: real) returns (ops: seq<Op>)
    ensures Resolve(n, p, now).buffer == Calls(n.buffer, ops, now)
  {
    var n1 := EnsureEntry(n, p.dst);
    ops := [];
    if n1.table[p.dst].flags.Down? && p.src == n.id {
      OneCall(n.buffer, EnqueOp(p), now);
      var rest := SendRequestCalls(n1.(buffer := Enque(n1.buffer, p, now)), p.dst, now);
      CallsConcat(n.buffer, [EnqueOp(p)], rest, now);
      ops := [EnqueOp(p)] + rest;
    }
  }

  lemma {:induction false} SalvageBuffer(n: Node, id: Addr, now: real)
    ensures Salvage(n, id, now).buffer == n.buffer
    decreases |n.ifq|
  {
    var f := FindNextHop(n.ifq, id);
    if f.Some? {
      SalvageBuffer(SalvageOne(n.(ifq := RemoveAt(n.ifq, f.value)), n.ifq[f.value], now), id, now);
    }
  }

  lemma LoseNeighborBuffer(n: Node, a: Addr, now: real)
    ensures LoseNeighbor(n, a, now).buffer == n.buffer
  {
    var n1 := n.(seqno := n.seqno + 2, nbrs := WithoutNeighbor(n.nbrs, a));
    FailAllOnlyTable(n1, a, n1.order);
    SalvageBuffer(LinkFailure(n1, a), a, now);
  }

  lemma {:induction false} LoseExpiredBuffer(n: Node, nbrs: seq<Neighbor>, now: real)
    ensures LoseExpired(n, nbrs, now).buffer == n.buffer
    decreases |nbrs|
  {
    if nbrs != [] {
      var last := |nbrs| - 1;
      LoseExpiredBuffer(n, nbrs[..last], now);
      LoseNeighborBuffer(LoseExpired(n, nbrs[..last], now), nbrs[last].addr, now);
    }
  }

  lemma PurgeRouteCalls(n: Node, d: Addr, now: real) returns (ops: seq<Op>)
    ensures PurgeRoute(n, d, now).buffer == Calls(n.buffer, ops, now)
  {
    ops := [];
    if d in n.table {
      var e := n.table[d];
      if e.flags.Up? && e.expire < now {
        if ExpireRoute(e, now).flags.Down? { ops := DrainCalls(Put(n, d, ExpireRoute(e, now)), d, now); }
      } else if e.flags.Up? {
        ops := FlushCalls(n, d, now);
      } else if FindDst(n.buffer.q, d).Some? {
        ops := SendRequestCalls(n, d, now);
      }
    }
  }

  lemma {:induction false} PurgeRoutesCalls(n: Node, ds: seq<Addr>, now: real) returns (ops: seq<Op>)
    ensures PurgeRoutes(n, ds, now).buffer == Calls(n.buffer, ops, now)
    decreases |ds|
  {
    ops := [];
    if ds != [] {
      var last := |ds| - 1;
      ops := PurgeRoutesCalls(n, ds[..last], now);
      var rest := PurgeRouteCalls(PurgeRoutes(n, ds[..last], now), ds[last], now);
      CallsConcat(n.buffer, ops, rest, now);
      ops := ops + rest;
    }
  }

  lemma MessageCalls(n: Node, m: Msg, now: real) returns (ops: seq<Op>)
    ensures HandleMessage(n, m, now).buffer == Calls(n.buffer, ops, now)
  {
    match m
    case Rreq(rq) => ops := RecvRequestCalls(n, rq, now);
    case Rrep(rp) => ops := RecvReplyCalls(n, rp, now);
    case Hello(hi) => ops := RecvReplyCalls(HearNeighbor(n, hi.dst, now), HelloReply(n.id, hi), now);
    case Rerr(re) => ErrorAllOnlyTable(n, re.ipSrc, re.dests); ops := [];
  }

  lemma TimerCalls(n: Node, t: Timer, now: real) returns (ops: seq<Op>)
    ensures HandleTimer(n, t, now).buffer == Calls(n.buffer, ops, now)
  {
    ops := [];
    match t
    case HelloTime =>
    case IdTime =>
    case NeighborTime => LoseExpiredBuffer(n, n.nbrs, now);
    case RouteTime => ops := PurgeRoutesCalls(n, n.order, now);
  }

  /** Whatever a node handles, its buffer goes through calls of enque and deque and nothing else. */
  lemma HandleCalls(n: Node, ev: Event, now: real) returns (ops: seq<Op>)
    ensures Handle(n, ev, now).buffer == Calls(n.buffer, ops, now)
  {
    ops := [];
    match ev
    case Receive(m) => ops := MessageCalls(n, AfterHop(m), now);
    case Data(p, isNew) => match Admit(n.id, p, isNew) { case None => case Some(q) => ops := ResolveCalls(n, q, now); }
    case Queue(ifq) =>
    case Tick(t) => ops := TimerCalls(n, t, now);
  }

  // ---- Runs ----

  /** Calls at the given times, none after `now`, lead from an empty buffer to `b`. */
  ghost predicate IsReplay(ops: seq<Op>, times: seq<real>, now: real, b: Buffer) {
    && |ops| == |times| && NonDecreasing(times)
    && (forall k | 0 <= k < |times| :: times[k] <= now)
    && Replay(ops, times).0 == b
  }

  lemma {:induction false} ReplayCalls(ops: seq<Op>, times: seq<real>, t: real, b: Buffer, more: seq<Op>, now: real)
    returns (times': seq<real>)
    requires IsReplay(ops, times, t, b) && t <= now
    ensures IsReplay(ops + more, times', now, Calls(b, more, now))
    decreases |more|
  {
    if more == [] {
      assert ops + more == ops;
      times' := times;
    } else {
      var last := |more| - 1;
      times' := ReplayCalls(ops, times, t, b, more[..last], now);
      ReplayNext(ops + more[..last], times', now, Calls(b, more[..last], now), more[last]);
      assert (ops + more[..last]) + [more[last]] == ops + more;
      times' := times' + [now];
    }
  }

  lemma ReplayNext(ops: seq<Op>, times: seq<real>, now: real, b: Buffer, op: Op)
    requires IsReplay(ops, times, now, b)
    ensures IsReplay(ops + [op], times + [now], now, Apply(b, op, now).1)
  {
    assert (ops + [op])[..|ops|] == ops && (times + [now])[..|times|] == times;
  }

  lemma StepCalls(net: Net, net': Net, i: Addr, ev: Event) returns (ops: seq<Op>)
    requires Step(net, net', i, ev)
    ensures net'.nodes[i].buffer == Calls(net.nodes[i].buffer, ops, net.now)
  {
    ops := HandleCalls(net.nodes[i], ev, net.now);
  }

  /** Over any run, each node's buffer is what some calls, in the order of their times, make of an empty one. */
  lemma {:induction false} RunReplays(run: seq<Net>, acts: seq<(Addr, Event)>, k: nat, i: Addr)
    returns (ops: seq<Op>, times: seq<real>)
    requires IsRun(run, acts) && k < |run| && i in run[k].nodes
    ensures IsReplay(ops, times, run[k].now, run[k].nodes[i].buffer)
  {
    if k == 0 {
      ops, times := [], [];
    } else {
      assert StepAt(run, acts, k - 1);
      ops, times := RunReplays(run, acts, k - 1, i);
      if i == acts[k - 1].0 {
        var more := StepCalls(run[k - 1], run[k], i, acts[k - 1].1);
        times := ReplayCalls(ops, times, run[k - 1].now, run[k - 1].nodes[i].buffer, more, run[k - 1].now);
        ops := ops + more;
      }
    }
  }

  /** In every reachable state each buffer holds at most 64 packets, and at whatever time it is next purged, scanning
      the list and dropping aged packets from the head come to the same. */
  lemma ReachableScan(net: Net, i: Addr, t: real)
    requires Reachable(net) && i in net.nodes
    ensures var b := net.nodes[i].buffer; |b.q| <= RTQ_MAX_LEN && PurgesAgree(b, t)
  {
    var run: seq<Net>, acts: seq<(Addr, Event)> :| IsRun(run, acts) && run[|run| - 1] == net;
    var ops, times := RunReplays(run, acts, |run| - 1, i);
    AlwaysOrdered(ops, times);
    ScanRefinesHead(ops, times, t);
  }
}

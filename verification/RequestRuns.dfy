/** The request budget over whole runs: the RREQs that a node really sends for a destination while its route stays
    down, whatever else the network does meanwhile. */
module RequestRuns {
  import opened Basics
  import opened Routes
  import opened Buffers
  import opened Nodes
  import opened NodeInvariant
  import opened Network
  import opened Outbox
  import opened RequestBudget

  /** `m` is a request that node `me` itself has started for `d`. */
  predicate Mine(m: Msg, me: Addr, d: Addr) {
    m.Rreq? && m.rq.src == me && m.rq.dst == d
  }

  /** The TTLs of node `me`'s own requests for `d`, in the order they were sent. */
  function OwnTtls(msgs: seq<Msg>, me: Addr, d: Addr): seq<int> {
    if msgs == [] then []
    else
      var last := |msgs| - 1;
      OwnTtls(msgs[..last], me, d) + if Mine(msgs[last], me, d) then [msgs[last].rq.ttl] else []
  }

  lemma OwnAppend(msgs: seq<Msg>, m: Msg, me: Addr, d: Addr)
    ensures OwnTtls(msgs + [m], me, d) == OwnTtls(msgs, me, d) + if Mine(m, me, d) then [m.rq.ttl] else []
  {
    assert (msgs + [m])[..|msgs|] == msgs;
  }

  lemma OwnNone(msgs: seq<Msg>, more: seq<Msg>, me: Addr, d: Addr)
    requires |more| <= 1 && forall m | m in more :: !Mine(m, me, d)
    ensures OwnTtls(msgs + more, me, d) == OwnTtls(msgs, me, d)
  {
    if more == [] {
      assert msgs + more == msgs;
    } else {
      assert more == [more[0]];
      OwnAppend(msgs, more[0], me, d);
    }
  }

  // ---- Handlers that leave a route that is down alone ----

  predicate IsDown(n: Node, d: Addr) {
    d in n.table && n.table[d].flags.Down?
  }

  function TtlsAsked(n: Node, d: Addr): seq<int> {
    OwnTtls(Sent(n.out), n.id, d)
  }

  /** The entry of a route that is down is untouched, and nothing is asked about it. */
  ghost predicate Frozen(n: Node, r: Node, d: Addr) {
    && r.id == n.id
    && (IsDown(n, d) ==> d in r.table && r.table[d] == n.table[d])
    && TtlsAsked(r, d) == TtlsAsked(n, d)
  }

  ghost predicate StaysUp(n: Node, r: Node) {
    forall d | IsUp(n, d) :: IsUp(r, d)
  }

  lemma EmitFrozen(n: Node, m: Msg, d: Addr)
    requires !Mine(m, n.id, d)
    ensures Frozen(n, Emit(n, m), d)
  {
    EmitSent(n, m);
    OwnNone(Sent(n.out), [m], n.id, d);
  }

  lemma HandFrozen(n: Node, o: Out, d: Addr)
    requires !o.Send?
    ensures Frozen(n, n.(out := n.out + [o]), d)
  {
    SentAppend(n.out, o);
    assert Sent(n.out) + [] == Sent(n.out);
  }

  /** Entries of routes that are up may change, but stay up. */
  ghost predicate OnlyUp(n: Node, r: Node) {
    && r.id == n.id && StaysUp(n, r)
    && forall d | IsDown(n, d) :: d in r.table && r.table[d] == n.table[d]
  }

  lemma PutOnlyUp(n: Node, k: Addr, e: Entry, o: Out)
    requires IsUp(n, k) && e.flags.Up?
    ensures OnlyUp(n, Put(n, k, e).(out := n.out + [o]))
  {
  }

  lemma ForwardOnlyUp(n: Node, k: Addr, p: Pkt, now: real)
    requires IsUp(n, k)
    ensures OnlyUp(n, Forward(n, k, p, now))
  {
    if p.ttl != 0 && p.dst != n.id && n.table[k].paths != [] {
      var e := TouchHead(n.table[k], now);
      PutOnlyUp(n, k, if p.src != n.id && p.isData then e.(rtError := true) else e,
                Transmit(p.(nexthop := n.table[k].paths[0].nexthop)));
    }
  }

  lemma OnlyUpFrozen(n: Node, r: Node, d: Addr)
    requires OnlyUp(n, r) && Sent(r.out) == Sent(n.out)
    ensures Frozen(n, r, d)
  {
  }

  lemma ForwardFrozen(n: Node, k: Addr, p: Pkt, now: real, d: Addr)
    requires IsUp(n, k)
    ensures Frozen(n, Forward(n, k, p, now), d) && StaysUp(n, Forward(n, k, p, now))
  {
    ForwardOnlyUp(n, k, p, now);
    ForwardSent(n, k, p, now);
    OnlyUpFrozen(n, Forward(n, k, p, now), d);
  }

  lemma {:induction false} FlushFrozen(n: Node, k: Addr, now: real, d: Addr)
    requires IsUp(n, k)
    ensures Frozen(n, Flush(n, k, now), d) && StaysUp(n, Flush(n, k, now))
    decreases |n.buffer.q|
  {
    var (p, b) := Deque(n.buffer, k, now);
    if p.Some? {
      var n1 := n.(buffer := b);
      ForwardFrozen(n1, k, p.value, now, d);
      FlushFrozen(Forward(n1, k, p.value, now), k, now, d);
      assert Frozen(n, n1, d);
    }
  }

  lemma SettleFrozen(n: Node, k: Addr, now: real, d: Addr)
    requires IsUp(n, k)
    ensures Frozen(n, Settle(n, k, now), d) && StaysUp(n, Settle(n, k, now))
  {
    var n1 := Put(n, k, SoftReset(n.table[k]));
    FlushFrozen(n1, k, now, d);
    assert Frozen(n, n1, d) && StaysUp(n, n1);
  }

  lemma DrainFrozen(n: Node, k: Addr, now: real, d: Addr)
    ensures Frozen(n, Drain(n, k, now), d)
  {
    DrainSent(n, k, now);
  }

  lemma SendRequestFrozen(n: Node, k: Addr, now: real, d: Addr)
    requires k in n.table && k != d
    ensures Frozen(n, SendRequest(n, k, now), d)
  {
    var e := n.table[k];
    if e.flags.Up? || e.reqTimeout > now {
    } else if e.reqCnt > RREQ_RETRIES {
      DrainFrozen(Put(n, k, GiveUp(e, now)), k, now, d);
    } else {
      IssueFrozen(n, k, NextAttempt(e, now), d);
    }
  }

  lemma IssueFrozen(n: Node, k: Addr, e: Entry, d: Addr)
    requires k in n.table && k != d
    ensures Frozen(n, IssueRequest(n, k, e), d)
  {
    var n1 := Put(n, k, e).(bid := n.bid + 1, seqno := n.seqno + 2);
    EmitFrozen(n1, Rreq(Request(n.id, e.reqTtl, 0, n.bid, k, e.seqno, n.id, n1.seqno, 0)), d);
  }

  lemma AnswerOnlyUp(n: Node, m: Request, hasPath: bool, dup: bool, now: real)
    requires IsUp(n, m.src)
    ensures OnlyUp(n, AnswerRequest(n, m, hasPath, dup, now))
  {
    if m.dst == n.id {
    } else if IsUp(n, m.dst) && n.table[m.dst].seqno >= m.dstSeqno {
      if hasPath { }
    } else if !dup {
    }
  }

  lemma AnswerFrozen(n: Node, m: Request, hasPath: bool, dup: bool, now: real, d: Addr)
    requires IsUp(n, m.src) && m.src != n.id
    ensures var r := AnswerRequest(n, m, hasPath, dup, now); Frozen(n, r, d) && StaysUp(n, r)
  {
    AnswerOnlyUp(n, m, hasPath, dup, now);
    var msgs := AnswerSent(n, m, hasPath, dup, now);
    OwnNone(Sent(n.out), msgs, n.id, d);
  }

  lemma RelayOnlyUp(n: Node, m: Reply, now: real)
    requires IsUp(n, m.dst)
    ensures OnlyUp(n, RelayReply(n, m, now))
  {
  }

  lemma RelayFrozen(n: Node, m: Reply, now: real, d: Addr)
    requires IsUp(n, m.dst) && m.ipDst != n.id
    ensures Frozen(n, RelayReply(n, m, now), d) && StaysUp(n, RelayReply(n, m, now))
  {
    RelayOnlyUp(n, m, now);
    var msgs := RelaySent(n, m, now);
    OwnNone(Sent(n.out), msgs, n.id, d);
  }

  /** The entry of `d` is as it was, or the route has come up. */
  ghost predicate SameOrUp(n: Node, r: Node, d: Addr) {
    && r.id == n.id && r.out == n.out
    && (IsDown(n, d) ==> IsUp(r, d) || (d in r.table && r.table[d] == n.table[d]))
  }

  ghost predicate Parity(n: Node) {
    forall d | d in n.table :: EntryParity(n.table[d])
  }

  lemma AbsorbRequestDown(n: Node, m: Request, now: real, d: Addr)
    requires Parity(n) && MsgOk(Rreq(m))
    ensures var (n1, verdict) := AbsorbRequest(n, m, now);
      SameOrUp(n, n1, d) && (verdict.Keep? ==> IsUp(n1, m.src))
  {
    if m.src in n.table { assert EntryParity(n.table[m.src]); }
  }

  lemma AbsorbReplyDown(n: Node, m: Reply, now: real, d: Addr)
    requires Parity(n) && MsgOk(Rrep(m))
    ensures var (n1, kept) := AbsorbReply(n, m, now);
      SameOrUp(n, n1, d) && (kept ==> IsUp(n1, m.dst))
  {
    if m.dst in n.table { assert EntryParity(n.table[m.dst]); }
  }

  lemma FinishRequestFrozen(n: Node, m: Request, hasPath: bool, dup: bool, now: real, d: Addr)
    requires IsUp(n, m.src) && m.src != n.id
    ensures var r := FinishRequest(n, m, hasPath, dup, now); Frozen(n, r, d) && StaysUp(n, r)
  {
    SettleFrozen(n, m.src, now, d);
    AnswerFrozen(Settle(n, m.src, now), m, hasPath, dup, now, d);
  }

  lemma RecvRequestFrozen(n: Node, m: Request, now: real, d: Addr)
    requires Parity(n) && MsgOk(Rreq(m)) && IsDown(n, d) && IsDown(RecvRequest(n, m, now), d)
    ensures Frozen(n, RecvRequest(n, m, now), d)
  {
    if m.src != n.id {
      AbsorbRequestDown(n, m, now, d);
      var (n1, verdict) := AbsorbRequest(n, m, now);
      if verdict.Keep? {
        FinishRequestFrozen(n1, m, verdict.hasPath, FindId(n.ids, m.src, m.bcastId).Some?, now, d);
      }
    }
  }

  lemma FinishReplyFrozen(n: Node, m: Reply, now: real, d: Addr)
    requires IsUp(n, m.dst)
    ensures Frozen(n, FinishReply(n, m, now), d) && StaysUp(n, FinishReply(n, m, now))
  {
    SettleFrozen(n, m.dst, now, d);
    if m.ipDst != n.id { RelayFrozen(Settle(n, m.dst, now), m, now, d); }
  }

  lemma RecvReplyFrozen(n: Node, m: Reply, now: real, d: Addr)
    requires Parity(n) && MsgOk(Rrep(m)) && IsDown(n, d) && IsDown(RecvReply(n, m, now), d)
    ensures Frozen(n, RecvReply(n, m, now), d)
  {
    if m.dst != n.id {
      AbsorbReplyDown(n, m, now, d);
      var (n1, kept) := AbsorbReply(n, m, now);
      if kept { FinishReplyFrozen(n1, m, now, d); }
    }
  }

  lemma {:induction false} ErrorAllFrozen(n: Node, from: Addr, dests: seq<(Addr, nat)>, d: Addr)
    ensures Frozen(n, ErrorAll(n, from, dests).0, d)
    decreases |dests|
  {
    if dests != [] { ErrorAllFrozen(n, from, dests[..|dests| - 1], d); }
  }

  lemma {:induction false} FailAllFrozen(n: Node, id: Addr, ds: seq<Addr>, d: Addr)
    ensures Frozen(n, FailAll(n, id, ds).0, d)
    decreases |ds|
  {
    if ds != [] { FailAllFrozen(n, id, ds[..|ds| - 1], d); }
  }

  lemma RecvErrorFrozen(n: Node, m: Error, d: Addr)
    ensures Frozen(n, RecvError(n, m), d)
  {
    ErrorAllFrozen(n, m.ipSrc, m.dests, d);
    var (n1, told) := ErrorAll(n, m.ipSrc, m.dests);
    EmitFrozen(n1, Rerr(Error(n1.id, 1, told)), d);
  }

  lemma LinkFailureFrozen(n: Node, id: Addr, d: Addr)
    ensures Frozen(n, LinkFailure(n, id), d)
  {
    FailAllFrozen(n, id, n.order, d);
    var (n1, told) := FailAll(n, id, n.order);
    EmitFrozen(n1, Rerr(Error(n1.id, 1, told)), d);
  }

  lemma SalvageOneFrozen(n: Node, p: Pkt, now: real, d: Addr)
    ensures Frozen(n, SalvageOne(n, p, now), d)
  {
    if p.isData && IsUp(n, p.dst) && p.salvage < MAX_SALVAGE_COUNT {
      ForwardFrozen(n, p.dst, p.(salvage := p.salvage + 1), now, d);
    } else {
      HandFrozen(n, Dropped(p), d);
    }
  }

  lemma {:induction false} SalvageFrozen(n: Node, id: Addr, now: real, d: Addr)
    ensures Frozen(n, Salvage(n, id, now), d)
    decreases |n.ifq|
  {
    var f := FindNextHop(n.ifq, id);
    if f.Some? {
      var n1 := n.(ifq := RemoveAt(n.ifq, f.value));
      SalvageOneSent(n1, n.ifq[f.value], now);
      SalvageOneFrozen(n1, n.ifq[f.value], now, d);
      SalvageFrozen(SalvageOne(n1, n.ifq[f.value], now), id, now, d);
      assert Frozen(n, n1, d);
    }
  }

  lemma LoseNeighborFrozen(n: Node, a: Addr, now: real, d: Addr)
    ensures Frozen(n, LoseNeighbor(n, a, now), d)
  {
    var n1 := n.(seqno := n.seqno + 2, nbrs := WithoutNeighbor(n.nbrs, a));
    LinkFailureFrozen(n1, a, d);
    SalvageFrozen(LinkFailure(n1, a), a, now, d);
  }

  lemma {:induction false} LoseExpiredFrozen(n: Node, nbrs: seq<Neighbor>, now: real, d: Addr)
    ensures Frozen(n, LoseExpired(n, nbrs, now), d)
    decreases |nbrs|
  {
    if nbrs != [] {
      var last := |nbrs| - 1;
      LoseExpiredFrozen(n, nbrs[..last], now, d);
      LoseNeighborFrozen(LoseExpired(n, nbrs[..last], now), nbrs[last].addr, now, d);
    }
  }

  // ---- Handlers that may ask ----

  /** The entry has been through one call of sendRequest, and what was sent is what that call asked for. */
  ghost predicate Tried(n: Node, r: Node, d: Addr, now: real)
    requires d in n.table
  {
    var (e, o) := TryRequest(n.table[d], now);
    && r.id == n.id
    && d in r.table && r.table[d] == e
    && TtlsAsked(r, d) == TtlsAsked(n, d) + if o.Asked? then [o.ttl] else []
  }

  lemma SendRequestTried(n: Node, d: Addr, now: real)
    requires IsDown(n, d)
    ensures Tried(n, SendRequest(n, d, now), d, now)
  {
    SendRequestTries(n, d, now);
    var (e, o) := TryRequest(n.table[d], now);
    if o.Asked? {
      var m :| Sent(SendRequest(n, d, now).out) == Sent(n.out) + [m] && Mine(m, n.id, d) && m.rq.ttl == o.ttl;
      OwnAppend(Sent(n.out), m, n.id, d);
    } else if o.GaveUp? {
      DrainSent(Put(n, d, e), d, now);
    }
  }

  ghost predicate FrozenOrTried(n: Node, r: Node, d: Addr, now: real)
    requires d in n.table
  {
    Frozen(n, r, d) || Tried(n, r, d, now)
  }

  lemma ResolveTried(n: Node, p: Pkt, now: real, d: Addr)
    requires IsDown(n, d)
    ensures FrozenOrTried(n, Resolve(n, p, now), d, now)
  {
    var n1 := EnsureEntry(n, p.dst);
    assert Frozen(n, n1, d);
    var e := n1.table[p.dst];
    if e.flags.Up? {
      ForwardFrozen(n1, p.dst, p, now, d);
    } else if p.src == n.id {
      var n2 := n1.(buffer := Enque(n1.buffer, p, now));
      assert Frozen(n, n2, d);
      if p.dst == d { SendRequestTried(n2, d, now); } else { SendRequestFrozen(n2, p.dst, now, d); }
    } else {
      EmitFrozen(n1, Rerr(Error(n1.id, 1, [(p.dst, e.seqno)])), d);
      HandFrozen(SendError(n1, [(p.dst, e.seqno)]), Dropped(p), d);
    }
  }

  lemma PurgeRouteFrozen(n: Node, k: Addr, now: real, d: Addr)
    requires k != d
    ensures Frozen(n, PurgeRoute(n, k, now), d)
  {
    if k in n.table {
      var e := n.table[k];
      if e.flags.Up? && e.expire < now {
        DrainFrozen(Put(n, k, ExpireRoute(e, now)), k, now, d);
      } else if e.flags.Up? {
        FlushFrozen(n, k, now, d);
      } else if FindDst(n.buffer.q, k).Some? {
        SendRequestFrozen(n, k, now, d);
      }
    }
  }

  lemma PurgeRouteTried(n: Node, d: Addr, now: real)
    requires IsDown(n, d)
    ensures FrozenOrTried(n, PurgeRoute(n, d, now), d, now)
  {
    if FindDst(n.buffer.q, d).Some? { SendRequestTried(n, d, now); }
  }

  /** rt_purge meets each route once. */
  lemma {:induction false} PurgeRoutesTried(n: Node, ds: seq<Addr>, now: real, d: Addr)
    requires IsDown(n, d) && forall i, j | 0 <= i < j < |ds| :: ds[i] != ds[j]
    ensures var r := PurgeRoutes(n, ds, now); if d in ds then FrozenOrTried(n, r, d, now) else Frozen(n, r, d)
    decreases |ds|
  {
    if ds != [] {
      var last := |ds| - 1;
      var n1 := PurgeRoutes(n, ds[..last], now);
      PurgeRoutesTried(n, ds[..last], now, d);
      assert ds == ds[..last] + [ds[last]];
      if ds[last] == d { PurgeRouteTried(n1, d, now); } else { PurgeRouteFrozen(n1, ds[last], now, d); }
    }
  }

  lemma MessageFrozen(n: Node, m: Msg, now: real, d: Addr)
    requires Parity(n) && MsgOk(m) && IsDown(n, d) && IsDown(HandleMessage(n, m, now), d)
    ensures Frozen(n, HandleMessage(n, m, now), d)
  {
    match m
    case Rreq(rq) => RecvRequestFrozen(n, rq, now, d);
    case Rrep(rp) => RecvReplyFrozen(n, rp, now, d);
    case Hello(hi) => RecvReplyFrozen(HearNeighbor(n, hi.dst, now), HelloReply(n.id, hi), now, d);
    case Rerr(re) => RecvErrorFrozen(n, re, d);
  }

  lemma TimerTried(n: Node, t: Timer, now: real, d: Addr)
    requires Listed(n) && IsDown(n, d)
    ensures FrozenOrTried(n, HandleTimer(n, t, now), d, now)
  {
    match t
    case HelloTime =>
      EmitFrozen(n, Hello(Greeting(n.id, 1, n.id, n.seqno, (1.0 + ALLOWED_HELLO_LOSS) * HELLO_INTERVAL)), d);
    case IdTime =>
    case NeighborTime => LoseExpiredFrozen(n, n.nbrs, now, d);
    case RouteTime => PurgeRoutesTried(n, n.order, now, d);
  }

  /** Whatever a node handles, a route that is down before and after has been through at most one call of
      sendRequest, and exactly the requests of that call have been sent for it. */
  lemma HandleTried(n: Node, ev: Event, now: real, d: Addr)
    requires Listed(n) && Parity(n) && (ev.Receive? ==> MsgOk(ev.m) && LiveTtl(ev.m))
    requires IsDown(n, d) && IsDown(Handle(n, ev, now), d)
    ensures FrozenOrTried(n, Handle(n, ev, now), d, now)
  {
    match ev
    case Receive(m) => MessageFrozen(n, AfterHop(m), now, d);
    case Data(p, isNew) =>
      match Admit(n.id, p, isNew) {
        case None => HandFrozen(n, Dropped(p), d);
        case Some(q) => ResolveTried(n, q, now, d);
      }
    case Queue(ifq) =>
    case Tick(t) => TimerTried(n, t, now, d);
  }

  // ---- Runs ----

  /** A request sent at time `at`. */
  datatype Ask = Ask(at: real, ttl: int)

  function Stamped(ttls: seq<int>, at: real): seq<Ask> {
    seq(|ttls|, k requires 0 <= k < |ttls| => Ask(at, ttls[k]))
  }

  ghost function AsksIn(run: seq<Net>, acts: seq<(Addr, Event)>, i: Addr, d: Addr, k: nat): seq<Ask>
    requires IsRun(run, acts) && k < |acts|
  {
    assert StepAt(run, acts, k);
    if acts[k].0 == i then Stamped(OwnTtls(Sent(After(run[k], i, acts[k].1).out), i, d), run[k].now) else []
  }

  /** The requests of its own that node `i` sends for `d` in steps `a` to `b` of a run. */
  ghost function Asks(run: seq<Net>, acts: seq<(Addr, Event)>, i: Addr, d: Addr, a: nat, b: nat): seq<Ask>
    requires IsRun(run, acts) && a <= b < |run|
    decreases b
  {
    if a == b then [] else Asks(run, acts, i, d, a, b - 1) + AsksIn(run, acts, i, d, b - 1)
  }

  ghost predicate DownAt(run: seq<Net>, i: Addr, d: Addr, k: nat)
    requires k < |run|
  {
    i in run[k].nodes && IsDown(run[k].nodes[i], d)
  }

  /** Node `i` has no route to `d` from state `a` to state `b`. */
  ghost predicate StaysDown(run: seq<Net>, i: Addr, d: Addr, a: nat, b: nat)
    requires a <= b < |run|
  {
    forall k | a <= k <= b :: DownAt(run, i, d, k)
  }

  ghost function EntryAt(run: seq<Net>, i: Addr, d: Addr, k: nat): Entry
    requires k < |run| && DownAt(run, i, d, k)
  {
    run[k].nodes[i].table[d]
  }

  /** In step `k` node `i` gives up on `d` for a while. */
  ghost predicate GivesUp(run: seq<Net>, i: Addr, d: Addr, k: nat)
    requires k + 1 < |run| && DownAt(run, i, d, k) && DownAt(run, i, d, k + 1)
  {
    EntryAt(run, i, d, k).reqCnt > RREQ_RETRIES && EntryAt(run, i, d, k + 1).reqCnt == 0
  }

  /** The requests among the outcomes of calls at the given times. */
  function AskedIn(times: seq<real>, os: seq<Outcome>): seq<Ask>
    requires |times| == |os|
  {
    if os == [] then []
    else
      var last := |os| - 1;
      AskedIn(times[..last], os[..last]) + if os[last].Asked? then [Ask(times[last], os[last].ttl)] else []
  }

  lemma StepIsTry(run: seq<Net>, acts: seq<(Addr, Event)>, i: Addr, d: Addr, k: nat)
    requires IsRun(run, acts) && k < |acts| && DownAt(run, i, d, k) && DownAt(run, i, d, k + 1)
    ensures var e, e', asks := EntryAt(run, i, d, k), EntryAt(run, i, d, k + 1), AsksIn(run, acts, i, d, k);
      var (x, o) := TryRequest(e, run[k].now);
      || (e' == e && asks == [])
      || (e' == x && asks == if o.Asked? then [Ask(run[k].now, o.ttl)] else [])
  {
    assert StepAt(run, acts, k);
    RunSafe(run, acts, k);
    if acts[k].0 == i { StepTried(run[k], run[k + 1], i, acts[k].1, d); }
  }

  lemma StepTried(net: Net, net': Net, i: Addr, ev: Event, d: Addr)
    requires Safe(net) && Step(net, net', i, ev) && IsDown(net.nodes[i], d) && IsDown(net'.nodes[i], d)
    ensures FrozenOrTried(net.nodes[i], After(net, i, ev), d, net.now)
  {
    if ev.Receive? { assert FlightOk(net, Flight(ev.m, i)); }
    assert forall k | k in net.nodes[i].table :: EntryOk(ViewOf(net, i), k, net.nodes[i].table[k]);
    HandleTried(net.nodes[i], ev, net.now, d);
  }

  /** Calls at `times` lead from `e` to `e'` and send `asks`; unless `gave`, none of them gives up. */
  ghost predicate IsPeriod(e: Entry, times: seq<real>, e': Entry, asks: seq<Ask>, gave: bool) {
    var (x, os) := Period(e, times);
    x == e' && asks == AskedIn(times, os) && (!gave ==> forall k | 0 <= k < |os| :: !os[k].GaveUp?)
  }

  lemma PeriodNext(e: Entry, times: seq<real>, e1: Entry, asks: seq<Ask>, gave: bool, t: real)
    requires IsPeriod(e, times, e1, asks, gave)
    ensures var (e2, o) := TryRequest(e1, t);
      IsPeriod(e, times + [t], e2, asks + (if o.Asked? then [Ask(t, o.ttl)] else []), gave || o.GaveUp?)
  {
    var os := Period(e, times).1;
    var o := TryRequest(e1, t).1;
    assert (times + [t])[..|times|] == times && (os + [o])[..|os|] == os;
  }

  lemma PeriodGave(e: Entry, times: seq<real>, e': Entry, asks: seq<Ask>, gave: bool, gave': bool)
    requires IsPeriod(e, times, e', asks, gave) && (gave ==> gave')
    ensures IsPeriod(e, times, e', asks, gave')
  {
  }

  lemma StepNext(run: seq<Net>, acts: seq<(Addr, Event)>, i: Addr, d: Addr, k: nat, e: Entry, times: seq<real>,
                 asks: seq<Ask>, gave: bool) returns (times': seq<real>)
    requires IsRun(run, acts) && k < |acts| && DownAt(run, i, d, k) && DownAt(run, i, d, k + 1)
    requires IsPeriod(e, times, EntryAt(run, i, d, k), asks, gave)
    ensures IsPeriod(e, times', EntryAt(run, i, d, k + 1), asks + AsksIn(run, acts, i, d, k),
                     gave || GivesUp(run, i, d, k))
  {
    StepIsTry(run, acts, i, d, k);
    if EntryAt(run, i, d, k + 1) == EntryAt(run, i, d, k) && AsksIn(run, acts, i, d, k) == [] {
      times' := times;
      assert asks + [] == asks;
    } else {
      times' := times + [run[k].now];
      PeriodNext(e, times, EntryAt(run, i, d, k), asks, gave, run[k].now);
    }
  }

  ghost predicate NoGiveUp(run: seq<Net>, i: Addr, d: Addr, a: nat, b: nat)
    requires a <= b < |run| && StaysDown(run, i, d, a, b)
  {
    forall k | a <= k < b :: !GivesUp(run, i, d, k)
  }

  lemma GiveUpsShorter(run: seq<Net>, i: Addr, d: Addr, a: nat, b: nat)
    requires a < b < |run| && StaysDown(run, i, d, a, b)
    ensures StaysDown(run, i, d, a, b - 1) && DownAt(run, i, d, b - 1) && DownAt(run, i, d, b)
    ensures !NoGiveUp(run, i, d, a, b - 1) || GivesUp(run, i, d, b - 1) ==> !NoGiveUp(run, i, d, a, b)
  {
  }

  /** While the route stays down, the entry goes through a series of calls of sendRequest and nothing else, and
      the requests sent are exactly those of the calls. */
  lemma {:induction false} RunIsPeriod(run: seq<Net>, acts: seq<(Addr, Event)>, i: Addr, d: Addr, a: nat, b: nat)
    returns (times: seq<real>)
    requires IsRun(run, acts) && a <= b < |run| && StaysDown(run, i, d, a, b)
    ensures IsPeriod(EntryAt(run, i, d, a), times, EntryAt(run, i, d, b), Asks(run, acts, i, d, a, b),
                     !NoGiveUp(run, i, d, a, b))
    decreases b
  {
    times := [];
    if a < b {
      GiveUpsShorter(run, i, d, a, b);
      times := RunIsPeriod(run, acts, i, d, a, b - 1);
      times := PeriodGoesOn(run, acts, i, d, a, b, times);
    }
  }

  lemma PeriodGoesOn(run: seq<Net>, acts: seq<(Addr, Event)>, i: Addr, d: Addr, a: nat, b: nat, times: seq<real>)
    returns (times': seq<real>)
    requires IsRun(run, acts) && a < b < |run| && StaysDown(run, i, d, a, b) && StaysDown(run, i, d, a, b - 1)
    requires IsPeriod(EntryAt(run, i, d, a), times, EntryAt(run, i, d, b - 1), Asks(run, acts, i, d, a, b - 1),
                      !NoGiveUp(run, i, d, a, b - 1))
    ensures IsPeriod(EntryAt(run, i, d, a), times', EntryAt(run, i, d, b), Asks(run, acts, i, d, a, b),
                     !NoGiveUp(run, i, d, a, b))
  {
    var before := !NoGiveUp(run, i, d, a, b - 1);
    var e, asks := EntryAt(run, i, d, a), Asks(run, acts, i, d, a, b - 1);
    GiveUpsShorter(run, i, d, a, b);
    times' := StepNext(run, acts, i, d, b - 1, e, times, asks, before);
    PeriodGave(e, times', EntryAt(run, i, d, b), asks + AsksIn(run, acts, i, d, b - 1),
               before || GivesUp(run, i, d, b - 1), !NoGiveUp(run, i, d, a, b));
  }

  // ---- What the calls allow, said of the requests sent ----

  /** The calls that two of the requests come from. */
  lemma {:induction false} AskedAt(times: seq<real>, os: seq<Outcome>, x: nat) returns (k: nat)
    requires |times| == |os| && x < |AskedIn(times, os)|
    ensures k < |os| && os[k].Asked? && AskedIn(times, os)[x] == Ask(times[k], os[k].ttl)
    decreases |os|
  {
    var last := |os| - 1;
    if x < |AskedIn(times[..last], os[..last])| {
      k := AskedAt(times[..last], os[..last], x);
    } else {
      k := last;
    }
  }

  lemma {:induction false} AskedPair(times: seq<real>, os: seq<Outcome>, x: nat, y: nat) returns (k: nat, l: nat)
    requires |times| == |os| && x < y < |AskedIn(times, os)|
    ensures k < l < |os| && os[k].Asked? && os[l].Asked?
    ensures AskedIn(times, os)[x] == Ask(times[k], os[k].ttl) && AskedIn(times, os)[y] == Ask(times[l], os[l].ttl)
    decreases |os|
  {
    var last := |os| - 1;
    if y < |AskedIn(times[..last], os[..last])| {
      k, l := AskedPair(times[..last], os[..last], x, y);
    } else {
      k := AskedAt(times[..last], os[..last], x);
      l := last;
    }
  }

  /** Requests that are, or are not, network-wide. */
  function CountAsks(asks: seq<Ask>, wide: bool): nat {
    if asks == [] then 0
    else
      var last := |asks| - 1;
      CountAsks(asks[..last], wide) + if (asks[last].ttl == NETWORK_DIAMETER) == wide then 1 else 0
  }

  lemma CountAppend(asks: seq<Ask>, x: Ask)
    ensures CountAsks(asks + [x], false) == CountAsks(asks, false) + if x.ttl == NETWORK_DIAMETER then 0 else 1
    ensures CountAsks(asks + [x], true) == CountAsks(asks, true) + if x.ttl == NETWORK_DIAMETER then 1 else 0
  {
    assert (asks + [x])[..|asks|] == asks;
  }

  lemma {:induction false} AskedCounts(times: seq<real>, os: seq<Outcome>)
    requires |times| == |os|
    ensures CountAsks(AskedIn(times, os), false) == Rings(os) && CountAsks(AskedIn(times, os), true) == WideRequests(os)
    decreases |os|
  {
    if os != [] {
      var last := |os| - 1;
      AskedCounts(times[..last], os[..last]);
      var asks := AskedIn(times[..last], os[..last]);
      if os[last].Asked? {
        CountAppend(asks, Ask(times[last], os[last].ttl));
      } else {
        assert asks + [] == asks;
      }
    }
  }

  lemma EntryAtOk(run: seq<Net>, acts: seq<(Addr, Event)>, i: Addr, d: Addr, k: nat)
    requires IsRun(run, acts) && k < |run| && DownAt(run, i, d, k)
    ensures var e := EntryAt(run, i, d, k);
      RequestState(e) && e.latency == NO_LATENCY
  {
    RunSafe(run, acts, k);
    assert EntryOk(ViewOf(run[k], i), d, EntryAt(run, i, d, k));
  }

  /** While a route stays down at most 3 ring-limited requests are sent for it. */
  lemma RingBudget(run: seq<Net>, acts: seq<(Addr, Event)>, i: Addr, d: Addr, a: nat, b: nat)
    requires IsRun(run, acts) && a <= b < |run| && StaysDown(run, i, d, a, b)
    ensures CountAsks(Asks(run, acts, i, d, a, b), false) <= 3
  {
    var times := RunIsPeriod(run, acts, i, d, a, b);
    EntryAtOk(run, acts, i, d, a);
    AtMostThreeRings(EntryAt(run, i, d, a), times);
    AskedCounts(times, Period(EntryAt(run, i, d, a), times).1);
  }

  /** While a route stays down and the node does not give up, at most RREQ_RETRIES + 1 network-wide requests are sent
      for it. */
  lemma WideBudget(run: seq<Net>, acts: seq<(Addr, Event)>, i: Addr, d: Addr, a: nat, b: nat)
    requires IsRun(run, acts) && a <= b < |run| && StaysDown(run, i, d, a, b) && NoGiveUp(run, i, d, a, b)
    ensures CountAsks(Asks(run, acts, i, d, a, b), true) <= RREQ_RETRIES + 1
  {
    var times := RunIsPeriod(run, acts, i, d, a, b);
    EntryAtOk(run, acts, i, d, a);
    WideUntilGiveUp(EntryAt(run, i, d, a), times);
    AskedCounts(times, Period(EntryAt(run, i, d, a), times).1);
  }

  lemma {:induction false} AllWide(asks: seq<Ask>)
    requires forall k | 0 <= k < |asks| :: asks[k].ttl == NETWORK_DIAMETER
    ensures CountAsks(asks, true) == |asks|
  {
    if asks != [] { AllWide(asks[..|asks| - 1]); }
  }

  /** A give-up starts the count again and leaves the last TTL, which was network-wide. */
  lemma EntryAfterGiveUp(run: seq<Net>, acts: seq<(Addr, Event)>, i: Addr, d: Addr, a: nat)
    requires IsRun(run, acts) && a + 1 < |run| && DownAt(run, i, d, a) && DownAt(run, i, d, a + 1)
    requires GivesUp(run, i, d, a)
    ensures EntryAt(run, i, d, a + 1).reqCnt == 0 && EntryAt(run, i, d, a + 1).reqTtl == NETWORK_DIAMETER
    ensures AsksIn(run, acts, i, d, a) == []
  {
    StepIsTry(run, acts, i, d, a);
    EntryAtOk(run, acts, i, d, a);
  }

  lemma WideFromBase(e: Entry, times: seq<real>, asks: seq<Ask>, e': Entry, gave: bool)
    requires IsPeriod(e, times, e', asks, gave) && RequestState(e) && e.reqTtl == NETWORK_DIAMETER
    ensures CountAsks(asks, true) == |asks| && forall k | 0 <= k < |asks| :: asks[k].ttl == NETWORK_DIAMETER
  {
    PeriodRings(e, times);
    var os := Period(e, times).1;
    forall x | 0 <= x < |asks| ensures asks[x].ttl == NETWORK_DIAMETER {
      var k := AskedAt(times, os, x);
    }
    AllWide(asks);
  }

  /** From a give-up on, while the route stays down, every request is network-wide; and until the next give-up at
      most RREQ_RETRIES + 1 requests of any kind are sent. */
  lemma AfterGiveUp(run: seq<Net>, acts: seq<(Addr, Event)>, i: Addr, d: Addr, a: nat, b: nat)
    requires IsRun(run, acts) && a < b < |run| && StaysDown(run, i, d, a, b) && DownAt(run, i, d, a + 1)
    requires GivesUp(run, i, d, a)
    ensures var asks := Asks(run, acts, i, d, a + 1, b);
      && (forall k | 0 <= k < |asks| :: asks[k].ttl == NETWORK_DIAMETER)
      && (NoGiveUp(run, i, d, a + 1, b) ==> |asks| == EntryAt(run, i, d, b).reqCnt <= RREQ_RETRIES + 1)
  {
    var times := RunIsPeriod(run, acts, i, d, a + 1, b);
    var e := EntryAt(run, i, d, a + 1);
    EntryAfterGiveUp(run, acts, i, d, a);
    EntryAtOk(run, acts, i, d, a + 1);
    var asks := Asks(run, acts, i, d, a + 1, b);
    WideFromBase(e, times, asks, EntryAt(run, i, d, b), !NoGiveUp(run, i, d, a + 1, b));
    if NoGiveUp(run, i, d, a + 1, b) {
      WideUntilGiveUp(e, times);
      AskedCounts(times, Period(e, times).1);
    }
  }

  /** Between two give-ups in a row, with the route down throughout, exactly RREQ_RETRIES + 1 requests of any kind
      are sent, all of them network-wide. */
  lemma BetweenGiveUps(run: seq<Net>, acts: seq<(Addr, Event)>, i: Addr, d: Addr, a: nat, b: nat)
    requires IsRun(run, acts) && a < b < |run| - 1 && StaysDown(run, i, d, a, b)
    requires DownAt(run, i, d, a + 1) && DownAt(run, i, d, b + 1)
    requires GivesUp(run, i, d, a) && NoGiveUp(run, i, d, a + 1, b) && GivesUp(run, i, d, b)
    ensures |Asks(run, acts, i, d, a, b + 1)| == RREQ_RETRIES + 1
    ensures CountAsks(Asks(run, acts, i, d, a, b + 1), true) == RREQ_RETRIES + 1
  {
    AfterGiveUp(run, acts, i, d, a, b);
    EntryAfterGiveUp(run, acts, i, d, a);
    EntryAfterGiveUp(run, acts, i, d, b);
    AsksFrom(run, acts, i, d, a, b);
    var asks := Asks(run, acts, i, d, a + 1, b);
    AllWide(asks);
    assert asks + [] == asks;
  }

  lemma {:induction false} AsksFrom(run: seq<Net>, acts: seq<(Addr, Event)>, i: Addr, d: Addr, a: nat, b: nat)
    requires IsRun(run, acts) && a < b < |run| && AsksIn(run, acts, i, d, a) == []
    ensures Asks(run, acts, i, d, a, b) == Asks(run, acts, i, d, a + 1, b)
    decreases b
  {
    if a + 1 < b { AsksFrom(run, acts, i, d, a, b - 1); }
  }

  /** While a route stays down the TTLs of the requests sent for it never decrease, so ring-limited ones come first;
      and once one has gone network-wide, the next comes no sooner than a second later. */
  lemma AskOrder(run: seq<Net>, acts: seq<(Addr, Event)>, i: Addr, d: Addr, a: nat, b: nat, x: nat, y: nat)
    requires IsRun(run, acts) && a <= b < |run| && StaysDown(run, i, d, a, b)
    requires x < y < |Asks(run, acts, i, d, a, b)|
    ensures var asks := Asks(run, acts, i, d, a, b);
      && asks[x].ttl <= asks[y].ttl
      && (asks[x].ttl == NETWORK_DIAMETER ==> asks[y].at >= asks[x].at + MAX_RREQ_TIMEOUT)
  {
    var times := RunIsPeriod(run, acts, i, d, a, b);
    var e := EntryAt(run, i, d, a);
    EntryAtOk(run, acts, i, d, a);
    var k, l := AskedPair(times, Period(e, times).1, x, y);
    TtlsNeverDecrease(e, times, k, l);
    if Period(e, times).1[k] == Asked(NETWORK_DIAMETER) { WideSpacing(e, times, k, l); }
  }

  /** A step that asks sets a wait that is no longer than a second. */
  lemma AskTimeout(run: seq<Net>, acts: seq<(Addr, Event)>, i: Addr, d: Addr, k: nat)
    requires IsRun(run, acts) && k < |acts| && DownAt(run, i, d, k) && DownAt(run, i, d, k + 1)
    ensures AsksIn(run, acts, i, d, k) != [] ==>
      run[k].now < EntryAt(run, i, d, k + 1).reqTimeout <= run[k].now + MAX_RREQ_TIMEOUT
  {
    StepIsTry(run, acts, i, d, k);
    EntryAtOk(run, acts, i, d, k);
    TryTimeout(EntryAt(run, i, d, k), run[k].now);
  }
}

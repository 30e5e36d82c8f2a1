/** Conservation of data packets at every node of a running network: whatever a node has accepted is still held, has
    been handed on, or is on record as dropped or lost. */
module Conservation {
  import opened Basics
  import opened Routes
  import opened Buffers
  import opened Nodes
  import opened NodeInvariant
  import opened NodeSteps
  import opened Network
  import opened Outbox
  import opened BufferLaws

  // ---- Packets up to what a node changes ----

  /** A packet without its TTL, next hop, deadline and salvage count. */
  function Core(p: Pkt): Pkt {
    p.(ttl := 0, nexthop := 0, deadline := 0.0, salvage := 0)
  }

  /** Whether `p` is a copy of `c`, as a number. */
  function One(p: Pkt, c: Pkt): nat {
    if Core(p) == c then 1 else 0
  }

  /** How many copies of `c` there are in `q`. */
  function Copies(q: seq<Pkt>, c: Pkt): nat {
    if q == [] then 0 else One(q[0], c) + Copies(q[1..], c)
  }

  /** The data packets handed to the scheduler, to local agents or to drop(). */
  function OutCopies(outs: seq<Out>, c: Pkt): nat {
    if outs == [] then 0
    else
      var last := |outs| - 1;
      OutCopies(outs[..last], c) + if outs[last].Send? then 0 else One(outs[last].p, c)
  }

  lemma OutAppend(outs: seq<Out>, o: Out, c: Pkt)
    ensures OutCopies(outs + [o], c) == OutCopies(outs, c) + if o.Send? then 0 else One(o.p, c)
  {
    assert (outs + [o])[..|outs|] == outs;
  }

  lemma {:induction false} CopiesConcat(a: seq<Pkt>, b: seq<Pkt>, c: Pkt)
    ensures Copies(a + b, c) == Copies(a, c) + Copies(b, c)
  {
    if a == [] {
      assert a + b == b;
    } else {
      assert (a + b)[1..] == a[1..] + b;
      CopiesConcat(a[1..], b, c);
    }
  }

  lemma CopiesOne(p: Pkt, c: Pkt)
    ensures Copies([p], c) == One(p, c)
  {
    var q := [p];
    assert q[0] == p && q[1..] == [];
    assert Copies(q, c) == One(q[0], c) + Copies(q[1..], c);
  }

  lemma CopiesRemove(q: seq<Pkt>, k: nat, c: Pkt)
    requires k < |q|
    ensures Copies(q, c) == Copies(RemoveAt(q, k), c) + One(q[k], c)
  {
    var before, one, after := q[..k], [q[k]], q[k + 1..];
    assert q == before + (one + after);
    CopiesConcat(before, one + after, c);
    CopiesConcat(one, after, c);
    CopiesConcat(before, after, c);
    CopiesOne(q[k], c);
  }

  // ---- The buffer ----

  function LostPackets(ls: seq<Loss>): seq<Pkt> {
    if ls == [] then [] else [ls[0].p] + LostPackets(ls[1..])
  }

  /** The packets of the buffer, and those it has lost. */
  function Load(b: Buffer, c: Pkt): nat {
    Copies(b.q + LostPackets(b.lost), c)
  }

  lemma {:induction false} LostPacketsBodies(ls: seq<Loss>)
    ensures Bodies(LostPackets(ls)) == LostBodies(ls)
  {
    if ls != [] {
      LostPacketsBodies(ls[1..]);
      assert LostPackets(ls)[1..] == LostPackets(ls[1..]);
    }
  }

  lemma AccountedBodies(b: Buffer)
    ensures Bodies(b.q + LostPackets(b.lost)) == Accounted(b)
  {
    BodiesConcat(b.q, LostPackets(b.lost));
    LostPacketsBodies(b.lost);
  }

  lemma {:induction false} BodyAt(q: seq<Pkt>, p: Pkt) returns (k: nat)
    requires p in Bodies(q)
    ensures k < |q| && Body(q[k]) == p
  {
    if Body(q[0]) == p {
      k := 0;
    } else {
      k := BodyAt(q[1..], p);
      k := k + 1;
    }
  }

  lemma {:induction false} BodiesSize(q: seq<Pkt>)
    ensures |Bodies(q)| == |q|
  {
    if q != [] { BodiesSize(q[1..]); }
  }

  /** Packets that agree but for deadlines agree but for all that a node changes. */
  lemma {:induction false} CopiesOfBodies(x: seq<Pkt>, y: seq<Pkt>, c: Pkt)
    requires Bodies(x) == Bodies(y)
    ensures Copies(x, c) == Copies(y, c)
  {
    if x == [] {
      BodiesSize(y);
    } else {
      assert Body(x[0]) in Bodies(x);
      var k := BodyAt(y, Body(x[0]));
      RemoveConserves(y, k);
      Cancel(Bodies(x[1..]), Bodies(RemoveAt(y, k)), Body(x[0]));
      CopiesOfBodies(x[1..], RemoveAt(y, k), c);
      CopiesRemove(y, k, c);
      SameCore(x[0], y[k]);
    }
  }

  lemma Cancel(a: multiset<Pkt>, b: multiset<Pkt>, p: Pkt)
    requires multiset{p} + a == b + multiset{p}
    ensures a == b
  {
    assert a == (multiset{p} + a) - multiset{p};
    assert b == (b + multiset{p}) - multiset{p};
  }

  lemma SameCore(p: Pkt, q: Pkt)
    requires Body(p) == Body(q)
    ensures Core(p) == Core(q)
  {
    assert Core(Body(p)) == Core(p) && Core(Body(q)) == Core(q);
  }

  function OnePacket(p: Option<Pkt>): seq<Pkt> {
    if p.Some? then [p.value] else []
  }

  /** The buffer after handing over `p` is lighter by just that packet. */
  lemma LoadAfter(b: Buffer, given: seq<Pkt>, b': Buffer, p: Option<Pkt>, c: Pkt)
    requires Accounted(b) + Bodies(given) == Accounted(b') + Returned(p)
    ensures Load(b, c) + Copies(given, c) == Load(b', c) + Copies(OnePacket(p), c)
  {
    AccountedBodies(b);
    AccountedBodies(b');
    assert Bodies(OnePacket(p)) == Returned(p);
    SameCopies(b.q + LostPackets(b.lost), given, b'.q + LostPackets(b'.lost), OnePacket(p), c);
  }

  lemma SameCopies(x: seq<Pkt>, x': seq<Pkt>, y: seq<Pkt>, y': seq<Pkt>, c: Pkt)
    requires Bodies(x) + Bodies(x') == Bodies(y) + Bodies(y')
    ensures Copies(x, c) + Copies(x', c) == Copies(y, c) + Copies(y', c)
  {
    BodiesConcat(x, x');
    BodiesConcat(y, y');
    CopiesOfBodies(x + x', y + y', c);
    CopiesConcat(x, x', c);
    CopiesConcat(y, y', c);
  }

  lemma DequeLoad(b: Buffer, d: Addr, now: real, c: Pkt)
    ensures var (p, b') := Deque(b, d, now); Load(b, c) == Load(b', c) + Copies(OnePacket(p), c)
  {
    var (p, b') := Deque(b, d, now);
    DequeConserves(b, d, now);
    LoadAfter(b, [], b', p, c);
  }

  lemma EnqueLoad(b: Buffer, p: Pkt, now: real, c: Pkt)
    ensures Load(Enque(b, p, now), c) == Load(b, c) + One(p, c)
  {
    EnqueConserves(b, p, now);
    CopiesOne(p, c);
    assert Bodies([p]) == multiset{Body(p)};
    LoadAfter(b, [p], Enque(b, p, now), None, c);
  }

  // ---- One handler ----

  /** All the data packets a node is accountable for. */
  function Held(n: Node, c: Pkt): nat {
    Load(n.buffer, c) + Copies(n.ifq, c) + OutCopies(n.out, c)
  }

  /** The route to `d` can be used. */
  predicate Usable(n: Node, d: Addr) {
    IsUp(n, d) && n.table[d].paths != []
  }

  predicate UsableEntry(e: Entry) {
    e.flags.Up? ==> e.paths != []
  }

  ghost predicate AllUsable(n: Node) {
    forall d | d in n.table :: UsableEntry(n.table[d])
  }

  /** Nothing but control messages has been added to `out`, and no packet has been moved. */
  ghost predicate Aside(n: Node, r: Node, c: Pkt) {
    r.buffer == n.buffer && r.ifq == n.ifq && OutCopies(r.out, c) == OutCopies(n.out, c)
  }

  lemma HandHeld(n: Node, o: Out, c: Pkt)
    requires !o.Send?
    ensures Held(n.(out := n.out + [o]), c) == Held(n, c) + One(o.p, c)
  {
    OutAppend(n.out, o, c);
  }

  lemma ForwardUsable(n: Node, d: Addr, p: Pkt, now: real)
    requires Usable(n, d)
    ensures Usable(Forward(n, d, p, now), d) && (AllUsable(n) ==> AllUsable(Forward(n, d, p, now)))
  {
  }

  /** One data packet has been handed out, and nothing else has moved. */
  ghost predicate HandsOut(n: Node, r: Node, p: Pkt) {
    && r.buffer == n.buffer && r.ifq == n.ifq && |r.out| == |n.out| + 1
    && var o := r.out[|n.out|]; r.out == n.out + [o] && !o.Send? && Core(o.p) == Core(p)
  }

  lemma HandsOutHeld(n: Node, r: Node, p: Pkt, c: Pkt)
    requires HandsOut(n, r, p)
    ensures Held(r, c) == Held(n, c) + One(p, c)
  {
    OutAppend(n.out, r.out[|n.out|], c);
  }

  lemma ForwardHandsOut(n: Node, d: Addr, p: Pkt, now: real)
    requires Usable(n, d)
    ensures HandsOut(n, Forward(n, d, p, now), p)
  {
  }

  lemma ForwardHeld(n: Node, d: Addr, p: Pkt, now: real, c: Pkt)
    requires Usable(n, d)
    ensures var r := Forward(n, d, p, now); Held(r, c) == Held(n, c) + One(p, c) && r.buffer == n.buffer
  {
    ForwardHandsOut(n, d, p, now);
    HandsOutHeld(n, Forward(n, d, p, now), p, c);
  }

  lemma {:induction false} FlushHeld(n: Node, d: Addr, now: real, c: Pkt)
    requires Usable(n, d)
    ensures Held(Flush(n, d, now), c) == Held(n, c)
    decreases |n.buffer.q|
  {
    var (p, b) := Deque(n.buffer, d, now);
    DequeLoad(n.buffer, d, now, c);
    if p.Some? {
      var n1 := n.(buffer := b);
      ForwardHeld(n1, d, p.value, now, c);
      ForwardUsable(n1, d, p.value, now);
      FlushHeld(Forward(n1, d, p.value, now), d, now, c);
      CopiesOne(p.value, c);
    }
  }

  lemma {:induction false} DrainHeld(n: Node, d: Addr, now: real, c: Pkt)
    ensures Held(Drain(n, d, now), c) == Held(n, c)
    decreases |n.buffer.q|
  {
    var (p, b) := Deque(n.buffer, d, now);
    DequeLoad(n.buffer, d, now, c);
    if p.Some? {
      var n1 := n.(buffer := b);
      HandHeld(n1, Dropped(p.value), c);
      DrainHeld(n1.(out := n1.out + [Dropped(p.value)]), d, now, c);
      CopiesOne(p.value, c);
    }
  }

  lemma SettleHeld(n: Node, d: Addr, now: real, c: Pkt)
    requires d in n.table && (IsUp(n, d) ==> Usable(n, d))
    ensures Held(Settle(n, d, now), c) == Held(n, c)
  {
    if n.table[d].flags.Up? {
      var n1 := Put(n, d, SoftReset(n.table[d]));
      FlushHeld(n1, d, now, c);
      assert Held(n1, c) == Held(n, c);
    }
  }

  lemma SendRequestHeld(n: Node, d: Addr, now: real, c: Pkt)
    requires d in n.table
    ensures Held(SendRequest(n, d, now), c) == Held(n, c)
  {
    var e := n.table[d];
    if e.flags.Up? || e.reqTimeout > now {
    } else if e.reqCnt > RREQ_RETRIES {
      DrainHeld(Put(n, d, GiveUp(e, now)), d, now, c);
    } else {
      IssueAside(n, d, NextAttempt(e, now), c);
    }
  }

  lemma IssueAside(n: Node, d: Addr, e: Entry, c: Pkt)
    requires d in n.table
    ensures Aside(n, IssueRequest(n, d, e), c)
  {
    OutAppend(n.out, IssueRequest(n, d, e).out[|n.out|], c);
  }

  lemma AnswerAside(n: Node, m: Request, hasPath: bool, dup: bool, now: real, c: Pkt)
    requires m.src in n.table
    ensures Aside(n, AnswerRequest(n, m, hasPath, dup, now), c)
  {
    var r := AnswerRequest(n, m, hasPath, dup, now);
    if r.out != n.out { OutAppend(n.out, r.out[|n.out|], c); }
  }

  lemma FinishRequestHeld(n: Node, m: Request, hasPath: bool, dup: bool, now: real, c: Pkt)
    requires Usable(n, m.src)
    ensures Held(FinishRequest(n, m, hasPath, dup, now), c) == Held(n, c)
  {
    SettleHeld(n, m.src, now, c);
    AnswerAside(Settle(n, m.src, now), m, hasPath, dup, now, c);
  }

  lemma RecvRequestHeld(n: Node, m: Request, now: real, c: Pkt)
    requires var (n1, verdict) := AbsorbRequest(n, m, now); m.src != n.id && verdict.Keep? ==> Usable(n1, m.src)
    ensures Held(RecvRequest(n, m, now), c) == Held(n, c)
  {
    if m.src != n.id {
      var (n1, verdict) := AbsorbRequest(n, m, now);
      assert Aside(n, n1, c);
      if verdict.Keep? {
        FinishRequestHeld(n1, m, verdict.hasPath, FindId(n.ids, m.src, m.bcastId).Some?, now, c);
      }
    }
  }

  lemma RelayAside(n: Node, m: Reply, now: real, c: Pkt)
    requires m.dst in n.table
    ensures Aside(n, RelayReply(n, m, now), c)
  {
    var r := RelayReply(n, m, now);
    if r.out != n.out { OutAppend(n.out, r.out[|n.out|], c); }
  }

  lemma FinishReplyHeld(n: Node, m: Reply, now: real, c: Pkt)
    requires Usable(n, m.dst)
    ensures Held(FinishReply(n, m, now), c) == Held(n, c)
  {
    SettleHeld(n, m.dst, now, c);
    RelayAside(Settle(n, m.dst, now), m, now, c);
  }

  lemma RecvReplyHeld(n: Node, m: Reply, now: real, c: Pkt)
    requires var (n1, kept) := AbsorbReply(n, m, now); m.dst != n.id && kept ==> Usable(n1, m.dst)
    ensures Held(RecvReply(n, m, now), c) == Held(n, c)
  {
    if m.dst != n.id {
      var (n1, kept) := AbsorbReply(n, m, now);
      assert Aside(n, n1, c);
      if kept { FinishReplyHeld(n1, m, now, c); }
    }
  }

  lemma RecvErrorAside(n: Node, m: Error, c: Pkt)
    ensures Aside(n, RecvError(n, m), c)
  {
    ErrorAllOnlyTable(n, m.ipSrc, m.dests);
    OutAppend(n.out, Send(Rerr(Error(n.id, 1, ErrorAll(n, m.ipSrc, m.dests).1))), c);
  }

  lemma LinkFailureAside(n: Node, id: Addr, c: Pkt)
    ensures Aside(n, LinkFailure(n, id), c)
  {
    FailAllOnlyTable(n, id, n.order);
    OutAppend(n.out, Send(Rerr(Error(n.id, 1, FailAll(n, id, n.order).1))), c);
  }

  lemma ResolveHeld(n: Node, p: Pkt, now: real, c: Pkt)
    requires AllUsable(n)
    ensures Held(Resolve(n, p, now), c) == Held(n, c) + One(p, c)
  {
    var n1 := EnsureEntry(n, p.dst);
    var e := n1.table[p.dst];
    assert Aside(n, n1, c);
    if e.flags.Up? {
      assert UsableEntry(n.table[p.dst]);
      ForwardHeld(n1, p.dst, p, now, c);
    } else if p.src == n.id {
      EnqueLoad(n1.buffer, p, now, c);
      SendRequestHeld(n1.(buffer := Enque(n1.buffer, p, now)), p.dst, now, c);
    } else {
      var n2 := SendError(n1, [(p.dst, e.seqno)]);
      OutAppend(n1.out, n2.out[|n1.out|], c);
      HandHeld(n2, Dropped(p), c);
    }
  }

  lemma SalvageOneUsable(n: Node, p: Pkt, now: real)
    requires AllUsable(n)
    ensures AllUsable(SalvageOne(n, p, now))
  {
    if p.isData && IsUp(n, p.dst) && p.salvage < MAX_SALVAGE_COUNT {
      assert UsableEntry(n.table[p.dst]);
      ForwardUsable(n, p.dst, p.(salvage := p.salvage + 1), now);
    }
  }

  lemma SalvageHandsOut(n: Node, p: Pkt, now: real)
    requires IsUp(n, p.dst) ==> Usable(n, p.dst)
    ensures HandsOut(n, SalvageOne(n, p, now), p)
  {
    if p.isData && IsUp(n, p.dst) && p.salvage < MAX_SALVAGE_COUNT {
      ForwardHandsOut(n, p.dst, p.(salvage := p.salvage + 1), now);
    }
  }

  /** A packet that moves from the interface queue to the scheduler is still accounted for. */
  lemma TurnHeld(n: Node, k: nat, r: Node, c: Pkt)
    requires k < |n.ifq| && HandsOut(n.(ifq := RemoveAt(n.ifq, k)), r, n.ifq[k])
    ensures Held(r, c) == Held(n, c)
  {
    HandsOutHeld(n.(ifq := RemoveAt(n.ifq, k)), r, n.ifq[k], c);
    CopiesRemove(n.ifq, k, c);
  }

  lemma {:induction false} SalvageHeld(n: Node, id: Addr, now: real, c: Pkt)
    requires AllUsable(n)
    ensures Held(Salvage(n, id, now), c) == Held(n, c)
    decreases |n.ifq|
  {
    var f := FindNextHop(n.ifq, id);
    if f.Some? {
      var n1, p := n.(ifq := RemoveAt(n.ifq, f.value)), n.ifq[f.value];
      SalvageOneUsable(n1, p, now);
      assert p.dst in n.table ==> UsableEntry(n.table[p.dst]);
      SalvageHandsOut(n1, p, now);
      TurnHeld(n, f.value, SalvageOne(n1, p, now), c);
      SalvageHeld(SalvageOne(n1, p, now), id, now, c);
    }
  }

  lemma GoodUsable(n: Node, v: View)
    requires Good(n, v)
    ensures AllUsable(n)
  {
    forall d | d in n.table ensures UsableEntry(n.table[d]) {
      assert EntryOk(v, d, n.table[d]);
    }
  }

  lemma LoseNeighborHeld(n: Node, a: Addr, now: real, v: View, c: Pkt)
    requires Good(n, v)
    ensures Held(LoseNeighbor(n, a, now), c) == Held(n, c)
  {
    var n1 := n.(seqno := n.seqno + 2, nbrs := WithoutNeighbor(n.nbrs, a));
    WithoutNeighborGood(n, a, v);
    LinkFailureAside(n1, a, c);
    LinkFailureGood(n1, a, v);
    GoodUsable(LinkFailure(n1, a), v);
    SalvageHeld(LinkFailure(n1, a), a, now, c);
  }

  lemma {:induction false} LoseExpiredHeld(n: Node, nbrs: seq<Neighbor>, now: real, v: View, c: Pkt)
    requires Good(n, v)
    ensures Held(LoseExpired(n, nbrs, now), c) == Held(n, c)
    decreases |nbrs|
  {
    if nbrs != [] {
      var last := |nbrs| - 1;
      LoseExpiredHeld(n, nbrs[..last], now, v, c);
      LoseExpiredGood(n, nbrs[..last], now, v);
      LoseNeighborHeld(LoseExpired(n, nbrs[..last], now), nbrs[last].addr, now, v, c);
    }
  }

  lemma PurgeRouteHeld(n: Node, d: Addr, now: real, c: Pkt)
    requires AllUsable(n)
    ensures Held(PurgeRoute(n, d, now), c) == Held(n, c)
  {
    if d in n.table {
      var e := n.table[d];
      if e.flags.Up? && e.expire < now {
        var n1 := Put(n, d, ExpireRoute(e, now));
        assert Aside(n, n1, c);
        DrainHeld(n1, d, now, c);
      } else if e.flags.Up? {
        assert UsableEntry(e);
        FlushHeld(n, d, now, c);
      } else if FindDst(n.buffer.q, d).Some? {
        SendRequestHeld(n, d, now, c);
      }
    }
  }

  lemma {:induction false} PurgeRoutesHeld(n: Node, ds: seq<Addr>, now: real, v: View, c: Pkt)
    requires Good(n, v)
    ensures Held(PurgeRoutes(n, ds, now), c) == Held(n, c)
    decreases |ds|
  {
    if ds != [] {
      var last := |ds| - 1;
      var n1 := PurgeRoutes(n, ds[..last], now);
      PurgeRoutesHeld(n, ds[..last], now, v, c);
      PurgeRoutesGood(n, ds[..last], now, v);
      GoodUsable(n1, v);
      PurgeRouteHeld(n1, ds[last], now, c);
    }
  }

  lemma RequestHeld(n: Node, m: Request, now: real, v: View, c: Pkt)
    requires Good(n, v) && MsgOk(Rreq(m)) && MsgWithin(Rreq(m), v.own) && AdvertOf(Rreq(m)).value in v.log
    ensures Held(RecvRequest(n, m, now), c) == Held(n, c)
  {
    if m.src != n.id {
      AbsorbRequestGood(n, m, now, v);
      GoodUsable(AbsorbRequest(n, m, now).0, v);
      RecvRequestHeld(n, m, now, c);
    }
  }

  lemma ReplyHeld(n: Node, m: Reply, now: real, v: View, c: Pkt)
    requires Good(n, v) && MsgOk(Rrep(m)) && MsgWithin(Rrep(m), v.own)
    requires AdvertOf(Rrep(m)).value in v.log && m.nextHop == n.id
    ensures Held(RecvReply(n, m, now), c) == Held(n, c)
  {
    if m.dst != n.id {
      AbsorbReplyGood(n, m, now, v);
      GoodUsable(AbsorbReply(n, m, now).0, v);
      RecvReplyHeld(n, m, now, c);
    }
  }

  lemma MessageHeld(n: Node, m: Msg, now: real, v: View, c: Pkt)
    requires Good(n, v) && MsgOk(m) && MsgWithin(m, v.own) && Addressed(m, n.id) && Adverts(m) <= v.log
    ensures Held(HandleMessage(n, m, now), c) == Held(n, c)
  {
    match m
    case Rreq(rq) => RequestHeld(n, rq, now, v, c);
    case Rrep(rp) => ReplyHeld(n, rp, now, v, c);
    case Hello(hi) =>
      HearNeighborGood(n, hi.dst, now, v);
      ReplyHeld(HearNeighbor(n, hi.dst, now), HelloReply(n.id, hi), now, v, c);
    case Rerr(re) => RecvErrorAside(n, re, c);
  }

  lemma TimerHeld(n: Node, t: Timer, now: real, v: View, c: Pkt)
    requires Good(n, v)
    ensures Held(HandleTimer(n, t, now), c) == Held(n, c)
  {
    match t
    case HelloTime => if HasActiveRoute(n) { OutAppend(n.out, SendHello(n).out[|n.out|], c); }
    case IdTime =>
    case NeighborTime => LoseExpiredHeld(n, n.nbrs, now, v, c);
    case RouteTime => PurgeRoutesHeld(n, n.order, now, v, c);
  }

  // ---- What comes in and goes out ----

  /** The packets an event brings: a data packet, or what the link layer leaves in the interface queue. */
  function Brought(ev: Event, c: Pkt): nat {
    match ev
    case Data(p, _) => One(p, c)
    case Queue(q) => Copies(q, c)
    case _ => 0
  }

  /** The packets the link layer takes away: the interface queue as it was. */
  function TakenAway(n: Node, ev: Event, c: Pkt): nat {
    if ev.Queue? then Copies(n.ifq, c) else 0
  }

  lemma HandleHeld(n: Node, ev: Event, now: real, v: View, c: Pkt)
    requires Good(n, v) && Possible(n, ev, v)
    ensures Held(n, c) + Brought(ev, c) == Held(Handle(n, ev, now), c) + TakenAway(n, ev, c)
  {
    match ev
    case Receive(m) => AfterHopHeld(n, m, now, v, c);
    case Data(p, isNew) =>
      GoodUsable(n, v);
      match Admit(n.id, p, isNew) {
        case None => HandHeld(n, Dropped(p), c);
        case Some(q) => ResolveHeld(n, q, now, c);
      }
    case Queue(ifq) =>
    case Tick(t) => TimerHeld(n, t, now, v, c);
  }

  lemma AfterHopHeld(n: Node, m: Msg, now: real, v: View, c: Pkt)
    requires Good(n, v) && Possible(n, Receive(m), v)
    ensures Held(HandleMessage(n, AfterHop(m), now), c) == Held(n, c)
  {
    assert AdvertOf(AfterHop(m)) == AdvertOf(m);
    MessageHeld(n, AfterHop(m), now, v, c);
  }

  // ---- Runs ----

  /** Everything brought to node `i` in the first `k` steps. */
  ghost function AllBrought(acts: seq<(Addr, Event)>, i: Addr, k: nat, c: Pkt): nat
    requires k <= |acts|
  {
    if k == 0 then 0
    else AllBrought(acts, i, k - 1, c) + BroughtIn(acts, i, k - 1, c)
  }

  /** Everything that has left node `i`: transmitted, delivered, dropped, or taken by the link layer. */
  ghost function AllLeft(run: seq<Net>, acts: seq<(Addr, Event)>, i: Addr, k: nat, c: Pkt): nat
    requires IsRun(run, acts) && k <= |acts|
  {
    if k == 0 then 0 else AllLeft(run, acts, i, k - 1, c) + LeftIn(run, acts, i, k - 1, c)
  }

  ghost function LeftIn(run: seq<Net>, acts: seq<(Addr, Event)>, i: Addr, k: nat, c: Pkt): nat
    requires IsRun(run, acts) && k < |acts|
  {
    assert StepAt(run, acts, k);
    if acts[k].0 == i
    then OutCopies(After(run[k], i, acts[k].1).out, c) + TakenAway(run[k].nodes[i], acts[k].1, c)
    else 0
  }

  /** What node `i` holds between events: buffered packets, those its buffer has lost, and its interface queue. */
  function Kept(n: Node, c: Pkt): nat {
    Load(n.buffer, c) + Copies(n.ifq, c)
  }

  lemma StepKept(net: Net, net': Net, i: Addr, ev: Event, c: Pkt)
    requires Safe(net) && Step(net, net', i, ev)
    ensures Kept(net.nodes[i], c) + Brought(ev, c) ==
            Kept(net'.nodes[i], c) + (OutCopies(After(net, i, ev).out, c) + TakenAway(net.nodes[i], ev, c))
  {
    if ev.Receive? { assert FlightOk(net, Flight(ev.m, i)); }
    HandleHeld(net.nodes[i], ev, net.now, ViewOf(net, i), c);
    var r := After(net, i, ev);
    assert Held(net.nodes[i], c) == Kept(net.nodes[i], c) + OutCopies([], c);
    assert Held(r, c) == Kept(r, c) + OutCopies(r.out, c) && Kept(net'.nodes[i], c) == Kept(r, c);
  }

  ghost function BroughtIn(acts: seq<(Addr, Event)>, i: Addr, k: nat, c: Pkt): nat
    requires k < |acts|
  {
    if acts[k].0 == i then Brought(acts[k].1, c) else 0
  }

  lemma RunStepKept(run: seq<Net>, acts: seq<(Addr, Event)>, i: Addr, k: nat, c: Pkt)
    requires IsRun(run, acts) && k < |acts| && i in run[k].nodes && i in run[k + 1].nodes
    ensures Kept(run[k].nodes[i], c) + BroughtIn(acts, i, k, c) ==
            Kept(run[k + 1].nodes[i], c) + LeftIn(run, acts, i, k, c)
  {
    assert StepAt(run, acts, k);
    RunSafe(run, acts, k);
    if acts[k].0 == i { StepKept(run[k], run[k + 1], i, acts[k].1, c); }
  }

  /** Conservation: over any run, everything ever brought to a node is in exactly one of: its buffer, its interface
      queue, lost by the buffer (overflow or age), or gone (transmitted, delivered, dropped, taken by the link
      layer). */
  lemma {:induction false} PacketsConserved(run: seq<Net>, acts: seq<(Addr, Event)>, i: Addr, k: nat, c: Pkt)
    requires IsRun(run, acts) && k <= |acts| && i in run[k].nodes
    ensures AllBrought(acts, i, k, c) == Kept(run[k].nodes[i], c) + AllLeft(run, acts, i, k, c)
  {
    if k > 0 {
      assert StepAt(run, acts, k - 1);
      PacketsConserved(run, acts, i, k - 1, c);
      RunStepKept(run, acts, i, k - 1, c);
    }
  }
}

/** Every handler keeps the node invariant. */
module NodeSteps {
  import opened Basics
  import opened Routes
  import opened Buffers
  import opened Nodes
  import opened NodeInvariant

  /** Everything but times, path expiries and request bookkeeping is untouched. */
  ghost predicate SameRoutes(n: Node, r: Node) {
    && r.id == n.id && r.cfg == n.cfg && r.ids == n.ids && r.nbrs == n.nbrs
    && r.table.Keys == n.table.Keys
    && forall d | d in n.table :: SameRoute(n.table[d], r.table[d])
  }

  ghost predicate SameRoute(e: Entry, e': Entry) {
    e'.seqno == e.seqno && e'.flags == e.flags && e'.adv == e.adv && e'.heard == e.heard
  }

  /** Nothing the invariant relates to other nodes has changed. */
  ghost predicate SameCore(n: Node, n': Node) {
    && n'.id == n.id && n'.cfg == n.cfg && n'.seqno == n.seqno && n'.table == n.table && n'.order == n.order
    && n'.said == n.said && n'.out == n.out
  }

  lemma FrameGood(n: Node, n': Node, v: View)
    requires Good(n, v) && SameCore(n, n')
    requires UniqueIds(n'.ids) && UniqueNeighbors(n'.nbrs) && |n'.buffer.q| <= RTQ_MAX_LEN
    ensures Good(n', v)
  {
    forall a | a in n'.said ensures Honest(n', a) {
      assert Honest(n, a);
    }
  }

  // ---- Data ----

  /** Packets handed on do not matter to the invariant. */
  lemma DataOutGood(n: Node, o: Out, v: View)
    requires Good(n, v) && !o.Send?
    ensures Good(n.(out := n.out + [o]), v)
  {
    var n' := n.(out := n.out + [o]);
    forall a | a in n'.said ensures Honest(n', a) {
      assert Honest(n, a);
    }
  }

  lemma TouchGood(n: Node, d: Addr, now: real, marked: bool, v: View)
    requires Good(n, v) && d in n.table && n.table[d].paths != []
    ensures var e := TouchHead(n.table[d], now);
      Good(Put(n, d, if marked then e.(rtError := true) else e), v)
  {
    var e := TouchHead(n.table[d], now);
    PutGood(n, d, if marked then e.(rtError := true) else e, v);
  }

  lemma TransmitGood(n: Node, d: Addr, o: Out, now: real, marked: bool, v: View)
    requires Good(n, v) && d in n.table && n.table[d].paths != [] && !o.Send?
    ensures var e := TouchHead(n.table[d], now);
      var n1 := Put(n, d, if marked then e.(rtError := true) else e);
      Good(n1.(out := n1.out + [o]), v)
  {
    var e := TouchHead(n.table[d], now);
    TouchGood(n, d, now, marked, v);
    DataOutGood(Put(n, d, if marked then e.(rtError := true) else e), o, v);
  }

  lemma ForwardSame(n: Node, d: Addr, p: Pkt, now: real)
    requires d in n.table
    ensures var r := Forward(n, d, p, now); SameRoutes(n, r) && r.buffer == n.buffer && r.seqno == n.seqno
  {
  }

  lemma ForwardGood(n: Node, d: Addr, p: Pkt, now: real, v: View)
    requires Good(n, v) && d in n.table
    ensures Good(Forward(n, d, p, now), v) && SameRoutes(n, Forward(n, d, p, now))
    ensures Forward(n, d, p, now).buffer == n.buffer && Forward(n, d, p, now).seqno == n.seqno
  {
    ForwardSame(n, d, p, now);
    if p.ttl == 0 {
      DataOutGood(n, Dropped(p), v);
    } else if p.dst == n.id {
      DataOutGood(n, Deliver(p), v);
    } else if n.table[d].paths != [] {
      TransmitGood(n, d, Transmit(p.(nexthop := n.table[d].paths[0].nexthop)), now, p.src != n.id && p.isData, v);
    }
  }

  lemma {:induction false} FlushGood(n: Node, d: Addr, now: real, v: View)
    requires Good(n, v) && d in n.table
    ensures Good(Flush(n, d, now), v) && SameRoutes(n, Flush(n, d, now))
    ensures Flush(n, d, now).seqno == n.seqno
    decreases |n.buffer.q|
  {
    var (p, b) := Deque(n.buffer, d, now);
    var n1 := n.(buffer := b);
    FrameGood(n, n1, v);
    if p.Some? {
      var n2 := Forward(n1, d, p.value, now);
      ForwardGood(n1, d, p.value, now, v);
      FlushGood(n2, d, now, v);
      assert Flush(n, d, now) == Flush(n2, d, now);
    } else {
      assert Flush(n, d, now) == n1;
    }
  }

  lemma {:induction false} DrainGood(n: Node, d: Addr, now: real, v: View)
    requires Good(n, v)
    ensures Good(Drain(n, d, now), v) && SameRoutes(n, Drain(n, d, now))
    ensures Drain(n, d, now).seqno == n.seqno
    decreases |n.buffer.q|
  {
    var (p, b) := Deque(n.buffer, d, now);
    var n1 := n.(buffer := b);
    FrameGood(n, n1, v);
    if p.Some? {
      var n2 := n1.(out := n1.out + [Dropped(p.value)]);
      DataOutGood(n1, Dropped(p.value), v);
      DrainGood(n2, d, now, v);
      assert Drain(n, d, now) == Drain(n2, d, now);
    } else {
      assert Drain(n, d, now) == n1;
    }
  }

  lemma EnqueGood(n: Node, p: Pkt, now: real, v: View)
    requires Good(n, v)
    ensures Good(n.(buffer := Enque(n.buffer, p, now)), v)
  {
    FrameGood(n, n.(buffer := Enque(n.buffer, p, now)), v);
  }

  // ---- Small changes ----

  lemma NewEntryOk(v: View, d: Addr)
    ensures EntryOk(v, d, NewEntry(d))
  {
  }

  lemma DistinctFirst(d: Addr, rest: seq<Addr>)
    requires d !in rest && forall i, j | 0 <= i < j < |rest| :: rest[i] != rest[j]
    ensures var all := [d] + rest; forall i, j | 0 <= i < j < |all| :: all[i] != all[j]
  {
    var all := [d] + rest;
    forall i, j | 0 <= i < j < |all| ensures all[i] != all[j] {
      assert all[j] == rest[j - 1];
      if i > 0 { assert all[i] == rest[i - 1]; }
    }
  }

  lemma ListedFirst(n: Node, d: Addr)
    requires Listed(n) && d !in n.table
    ensures Listed(EnsureEntry(n, d))
  {
    DistinctFirst(d, n.order);
  }

  lemma EntriesStay(n: Node, d: Addr, v: View)
    requires TableOk(n, v)
    ensures TableOk(EnsureEntry(n, d), v)
  {
    NewEntryOk(v, d);
    var n' := EnsureEntry(n, d);
    forall k | k in n'.table ensures EntryOk(v, k, n'.table[k]) {
      if k in n.table { assert EntryOk(v, k, n.table[k]); }
    }
  }

  lemma EnsureEntryGood(n: Node, d: Addr, v: View)
    requires Good(n, v)
    ensures Good(EnsureEntry(n, d), v)
  {
    if d !in n.table {
      var n' := EnsureEntry(n, d);
      ListedFirst(n, d);
      EntriesStay(n, d, v);
      forall a | a in n'.said ensures Honest(n', a) {
        assert Honest(n, a);
      }
    }
  }

  lemma WithinMore(m: Msg, own: map<Addr, nat>, own': map<Addr, nat>)
    requires MsgWithin(m, own) && forall d :: Limit(own, d) <= Limit(own', d)
    ensures MsgWithin(m, own')
  {
  }

  /** What a node has sent stays within its number when that rises. */
  lemma OutsLater(n: Node, n': Node, v: View)
    requires n'.id == n.id && n'.out == n.out && n'.said == n.said && n.seqno <= n'.seqno
    requires forall o | o in n.out :: OutOk(n, v, o)
    ensures forall o | o in n'.out :: OutOk(n', v, o)
  {
    forall o | o in n'.out ensures OutOk(n', v, o) {
      assert OutOk(n, v, o);
      if o.Send? { WithinMore(o.m, v.own[n.id := n.seqno], v.own[n.id := n'.seqno]); }
    }
  }

  lemma BumpGood(n: Node, s: nat, v: View)
    requires Good(n, v) && s >= n.seqno && s % 2 == 0
    ensures Good(n.(seqno := s), v)
  {
    var n' := n.(seqno := s);
    OutsLater(n, n', v);
    forall a | a in n'.said ensures Honest(n', a) {
      assert Honest(n, a);
    }
  }

  /** A claim that is true now: the node's own number, or the number and hop count its table holds. */
  ghost predicate Current(n: Node, a: Advert) {
    Honest(n, a) && (a.dst != n.id ==> a.seqno == n.table[a.dst].seqno)
  }

  lemma EmitGood(n: Node, m: Msg, v: View)
    requires Good(n, v) && MsgOk(m) && LiveTtl(m) && MsgWithin(m, v.own[n.id := n.seqno])
    requires forall a | a in Adverts(m) :: Current(n, a)
    ensures Good(Emit(n, m), v)
  {
    var n' := Emit(n, m);
    assert forall o | o in n'.out :: o in n.out || o == Send(m);
    forall a, b | a in n'.said && b in n'.said ensures SameClaim(a, b) {
      assert Honest(n, a) && Honest(n, b);
    }
    forall a | a in n'.said ensures Honest(n', a) {
      assert Honest(n, a);
    }
  }

  lemma CacheIdGood(n: Node, src: Addr, id: nat, now: real, v: View)
    requires Good(n, v)
    ensures Good(CacheId(n, src, id, now), v)
  {
    FrameGood(n, CacheId(n, src, id, now), v);
  }

  lemma MarkRepliedGood(n: Node, k: nat, v: View)
    requires Good(n, v) && k < |n.ids|
    ensures Good(MarkReplied(n, k), v)
  {
    FrameGood(n, MarkReplied(n, k), v);
  }

  lemma {:induction false} LiveIdsUnique(ids: seq<BroadcastId>, now: real)
    requires UniqueIds(ids)
    ensures UniqueIds(LiveIds(ids, now))
  {
    if ids != [] {
      LiveIdsUnique(ids[1..], now);
      var rest := LiveIds(ids[1..], now);
      assert forall k | 0 <= k < |rest| :: rest[k] in ids[1..];
    }
  }

  // ---- Sending ----

  /** The node's own request: a claim about itself under its own, freshly raised number. */
  lemma EmitOwnRequestGood(n: Node, d: Addr, ttl: int, bid: nat, v: View)
    requires Good(n, v) && d in n.table && ttl >= 1
    ensures Good(Emit(n, Rreq(Request(n.id, ttl, 0, bid, d, n.table[d].seqno, n.id, n.seqno, 0))), v)
  {
    EmitGood(n, Rreq(Request(n.id, ttl, 0, bid, d, n.table[d].seqno, n.id, n.seqno, 0)), v);
  }

  lemma SpendGood(n: Node, d: Addr, e: Entry, v: View)
    requires Good(n, v) && d in n.table && EntryOk(v, d, e) && Evolves(n.table[d], e)
    ensures Good(Put(n, d, e).(bid := n.bid + 1, seqno := n.seqno + 2), v)
  {
    var n1 := Put(n, d, e).(bid := n.bid + 1, seqno := n.seqno + 2);
    OutsLater(n, n1, v);
    forall a | a in n1.said ensures Honest(n1, a) {
      assert Honest(n, a);
    }
  }

  lemma IssueRequestGood(n: Node, d: Addr, e: Entry, v: View)
    requires Good(n, v) && d in n.table && EntryOk(v, d, e) && Evolves(n.table[d], e) && e.reqTtl >= 1
    ensures Good(IssueRequest(n, d, e), v)
  {
    var n1 := Put(n, d, e).(bid := n.bid + 1, seqno := n.seqno + 2);
    assert IssueRequest(n, d, e) ==
           Emit(n1, Rreq(Request(n1.id, e.reqTtl, 0, n.bid, d, n1.table[d].seqno, n1.id, n1.seqno, 0)));
    SpendGood(n, d, e, v);
    EmitOwnRequestGood(n1, d, e.reqTtl, n.bid, v);
  }

  lemma SendRequestGood(n: Node, d: Addr, now: real, v: View)
    requires Good(n, v) && d in n.table
    ensures Good(SendRequest(n, d, now), v)
  {
    var e := n.table[d];
    if e.flags.Up? || e.reqTimeout > now {
    } else if e.reqCnt > RREQ_RETRIES {
      PutGood(n, d, GiveUp(e, now), v);
      DrainGood(Put(n, d, GiveUp(e, now)), d, now, v);
    } else {
      IssueRequestGood(n, d, NextAttempt(e, now), v);
    }
  }

  lemma SoftResetOk(v: View, d: Addr, e: Entry)
    requires EntryOk(v, d, e)
    ensures EntryOk(v, d, SoftReset(e)) && Evolves(e, SoftReset(e)) && SameRoute(e, SoftReset(e))
  {
  }

  lemma ResetGood(n: Node, d: Addr, v: View)
    requires Good(n, v) && d in n.table
    ensures var r := Put(n, d, SoftReset(n.table[d])); Good(r, v) && SameRoutes(n, r)
  {
    SoftResetOk(v, d, n.table[d]);
    PutGood(n, d, SoftReset(n.table[d]), v);
  }

  lemma SameRoutesTransitive(n: Node, r: Node, t: Node)
    requires SameRoutes(n, r) && SameRoutes(r, t)
    ensures SameRoutes(n, t)
  {
  }

  lemma SettleGood(n: Node, d: Addr, now: real, v: View)
    requires Good(n, v) && d in n.table
    ensures Good(Settle(n, d, now), v) && SameRoutes(n, Settle(n, d, now))
    ensures Settle(n, d, now).seqno == n.seqno
  {
    if n.table[d].flags.Up? {
      var n1 := Put(n, d, SoftReset(n.table[d]));
      ResetGood(n, d, v);
      FlushGood(n1, d, now, v);
      SameRoutesTransitive(n, n1, Settle(n, d, now));
    }
  }

  /** No route for a packet from elsewhere: an error goes out and the packet is dropped. */
  lemma RefuseGood(n: Node, p: Pkt, v: View)
    requires Good(n, v) && p.dst in n.table && n.table[p.dst].flags.Down?
    ensures var r := SendError(n, [(p.dst, n.table[p.dst].seqno)]); Good(r.(out := r.out + [Dropped(p)]), v)
  {
    var m := Rerr(Error(n.id, 1, [(p.dst, n.table[p.dst].seqno)]));
    assert EntryOk(v, p.dst, n.table[p.dst]);
    EmitGood(n, m, v);
    DataOutGood(Emit(n, m), Dropped(p), v);
  }

  lemma AskGood(n: Node, p: Pkt, now: real, v: View)
    requires Good(n, v) && p.dst in n.table
    ensures Good(SendRequest(n.(buffer := Enque(n.buffer, p, now)), p.dst, now), v)
  {
    EnqueGood(n, p, now, v);
    SendRequestGood(n.(buffer := Enque(n.buffer, p, now)), p.dst, now, v);
  }

  lemma ResolveGood(n: Node, p: Pkt, now: real, v: View)
    requires Good(n, v)
    ensures Good(Resolve(n, p, now), v)
  {
    var n1 := EnsureEntry(n, p.dst);
    EnsureEntryGood(n, p.dst, v);
    if n1.table[p.dst].flags.Up? {
      ForwardGood(n1, p.dst, p, now, v);
    } else if p.src == n.id {
      AskGood(n1, p, now, v);
    } else {
      RefuseGood(n1, p, v);
    }
  }

  // ---- Requests ----

  lemma AbsorbRequestGood(n: Node, m: Request, now: real, v: View)
    requires Good(n, v) && MsgOk(Rreq(m)) && MsgWithin(Rreq(m), v.own) && AdvertOf(Rreq(m)).value in v.log
    requires m.src != n.id
    ensures var (n1, verdict) := AbsorbRequest(n, m, now);
      && Good(n1, v) && n1.id == n.id && n1.cfg == n.cfg
      && (verdict.Keep? ==> IsUp(n1, m.src) && n1.table[m.src].seqno == m.srcSeqno)
  {
    var n0 := CacheId(n, m.src, m.bcastId, now);
    CacheIdGood(n, m.src, m.bcastId, now, v);
    var n1 := EnsureEntry(n0, m.src);
    EnsureEntryGood(n0, m.src, v);
    var o := RequestOffer(n.id, m, now);
    var (e, verdict) := LearnReverse(n.cfg, n1.table[m.src], o, m.dst == n.id);
    LearnReverseOk(v, m.src, n1.table[m.src], o, m.dst == n.id);
    PutGood(n1, m.src, e, v);
  }

  lemma FinishRequestGood(n: Node, m: Request, hasPath: bool, dup: bool, now: real, v: View)
    requires Good(n, v) && MsgOk(Rreq(m)) && MsgWithin(Rreq(m), v.own) && m.src != n.id
    requires IsUp(n, m.src) && n.table[m.src].seqno == m.srcSeqno
    ensures Good(FinishRequest(n, m, hasPath, dup, now), v)
  {
    SettleGood(n, m.src, now, v);
    AnswerRequestGood(Settle(n, m.src, now), m, hasPath, dup, now, v);
  }

  lemma KeptRequestGood(n: Node, m: Request, now: real, v: View)
    requires Good(n, v) && MsgOk(Rreq(m)) && MsgWithin(Rreq(m), v.own) && AdvertOf(Rreq(m)).value in v.log
    requires m.src != n.id && AbsorbRequest(n, m, now).1.Keep?
    ensures Good(RecvRequest(n, m, now), v)
  {
    AbsorbRequestGood(n, m, now, v);
    var (n1, verdict) := AbsorbRequest(n, m, now);
    FinishRequestGood(n1, m, verdict.hasPath, FindId(n.ids, m.src, m.bcastId).Some?, now, v);
  }

  lemma RecvRequestGood(n: Node, m: Request, now: real, v: View)
    requires Good(n, v) && MsgOk(Rreq(m)) && MsgWithin(Rreq(m), v.own) && AdvertOf(Rreq(m)).value in v.log
    ensures Good(RecvRequest(n, m, now), v)
  {
    if m.src == n.id {
    } else if AbsorbRequest(n, m, now).1.Keep? {
      KeptRequestGood(n, m, now, v);
    } else {
      AbsorbRequestGood(n, m, now, v);
    }
  }

  /** A reply of the node about itself, under its own number. */
  lemma EmitOwnReplyGood(n: Node, rp: Reply, v: View)
    requires Good(n, v) && rp.dst == n.id && rp.rpSrc == n.id && rp.dstSeqno == n.seqno && rp.hopCount == 0
    requires rp.ttl >= 1 && rp.firstHop == rp.nextHop
    ensures Good(Emit(n, Rrep(rp)), v)
  {
    EmitGood(n, Rrep(rp), v);
  }

  lemma AnswerForSelfGood(n: Node, m: Request, v: View)
    requires Good(n, v)
    ensures Good(ReplyAsDestination(n, m), v)
  {
    var s := if n.seqno < m.dstSeqno then m.dstSeqno + 1 else n.seqno;
    var s1 := if s % 2 != 0 then s + 1 else s;
    BumpGood(n, s1, v);
    var rp := Reply(m.ipSrc, n.id, m.src, NETWORK_DIAMETER, 0, n.id, s1, n.id, MY_ROUTE_TIMEOUT, m.bcastId, m.ipSrc);
    EmitOwnReplyGood(n.(seqno := s1), rp, v);
    assert ReplyAsDestination(n, m) == Emit(n.(seqno := s1), Rrep(rp));
  }

  lemma AnswerRequestGood(n: Node, m: Request, hasPath: bool, dup: bool, now: real, v: View)
    requires Good(n, v) && MsgOk(Rreq(m)) && MsgWithin(Rreq(m), v.own) && m.src != n.id
    requires IsUp(n, m.src) && n.table[m.src].seqno == m.srcSeqno
    ensures Good(AnswerRequest(n, m, hasPath, dup, now), v)
  {
    if m.dst == n.id {
      AnswerForSelfGood(n, m, v);
    } else if IsUp(n, m.dst) && n.table[m.dst].seqno >= m.dstSeqno {
      if hasPath { ReplyFromTableGood(n, m, now, v); }
    } else if !dup {
      RebroadcastGood(n, m, v);
    }
  }

  /** Route `e` is in the table, and says what has been advertised about `d`. */
  ghost predicate Holds(n: Node, d: Addr, e: Entry) {
    && d in n.table && n.table[d].seqno == e.seqno && e.flags.Up? && e.adv.Some? && e.paths != []
    && StillTrue(n.table[d], Advert(n.id, d, e.seqno, HopField(e.adv), Some(e.paths[0].lasthop)))
  }

  /** The first half of every reply: the route is advertised and its errors will be reported. */
  lemma AdvertisedGood(n: Node, d: Addr, k: nat, v: View)
    requires Good(n, v) && IsUp(n, d) && k < |n.ids|
    ensures var e := Advertise(n.table[d]).(rtError := true);
      var r := Put(MarkReplied(n, k), d, e);
      Good(r, v) && Holds(r, d, e) && EntryOk(v, d, e)
  {
    MarkRepliedGood(n, k, v);
    AdvertiseOk(v, d, n.table[d]);
    PutGood(MarkReplied(n, k), d, Advertise(n.table[d]).(rtError := true), v);
  }

  /** Reply `rp` carries route `e`. */
  predicate Carries(me: Addr, rp: Reply, e: Entry) {
    && rp.rpSrc == me && rp.dst != me && rp.dst == e.dst && rp.dstSeqno == e.seqno && rp.hopCount == HopField(e.adv)
    && e.paths != [] && rp.firstHop == e.paths[0].lasthop
  }

  lemma EmitReplyGood(n: Node, rp: Reply, e: Entry, v: View)
    requires Good(n, v) && Holds(n, rp.dst, e) && EntryOk(v, rp.dst, e) && Carries(n.id, rp, e) && rp.ttl >= 1
    ensures Good(Emit(n, Rrep(rp)), v)
  {
    assert AdvertOf(Rrep(rp)) == Some(Advert(n.id, rp.dst, e.seqno, HopField(e.adv), Some(e.paths[0].lasthop)));
    EmitGood(n, Rrep(rp), v);
  }

  lemma ReplyFromTableGood(n: Node, m: Request, now: real, v: View)
    requires Good(n, v) && IsUp(n, m.dst) && m.dst != n.id
    ensures Good(ReplyFromTable(n, m, now), v)
  {
    var f := FindId(n.ids, m.src, m.bcastId);
    if f.Some? && n.ids[f.value].count == 0 && n.table[m.dst].paths != [] {
      TableReplyGood(n, m, f.value, now, v);
    } else {
      assert ReplyFromTable(n, m, now) == n;
    }
  }

  lemma TableReplyGood(n: Node, m: Request, k: nat, now: real, v: View)
    requires Good(n, v) && IsUp(n, m.dst) && m.dst != n.id
    requires FindId(n.ids, m.src, m.bcastId) == Some(k) && n.ids[k].count == 0 && n.table[m.dst].paths != []
    ensures Good(ReplyFromTable(n, m, now), v)
  {
    var e := Advertise(n.table[m.dst]).(rtError := true);
    var n1 := Put(MarkReplied(n, k), m.dst, e);
    AdvertisedGood(n, m.dst, k, v);
    EmitReplyGood(n1, TableReply(n, m, e, now), e, v);
    TableReplySent(n, m, k, now);
  }

  /** The reply sent from the table. */
  function TableReply(n: Node, m: Request, e: Entry, now: real): Reply
    requires e.paths != []
  {
    Reply(m.ipSrc, n.id, m.src, NETWORK_DIAMETER, HopField(e.adv), m.dst, e.seqno, n.id,
          e.paths[0].expire - now, m.bcastId, e.paths[0].lasthop)
  }

  lemma TableReplySent(n: Node, m: Request, k: nat, now: real)
    requires m.dst in n.table && n.table[m.dst].paths != []
    requires FindId(n.ids, m.src, m.bcastId) == Some(k) && n.ids[k].count == 0
    ensures var e := Advertise(n.table[m.dst]).(rtError := true);
      ReplyFromTable(n, m, now) == Emit(Put(MarkReplied(n, k), m.dst, e), Rrep(TableReply(n, m, e, now)))
  {
  }

  /** A request that carries the reverse route `e`, which the table holds as advertised. */
  lemma EmitRequestGood(n: Node, rq: Request, e: Entry, v: View)
    requires Good(n, v) && rq.src != n.id && rq.src in n.table && n.table[rq.src] == e
    requires e.flags.Up? && e.adv.Some? && e.paths != [] && rq.ttl >= 1
    requires rq.ipSrc == n.id && rq.srcSeqno == e.seqno && rq.hopCount == HopField(e.adv)
    requires rq.firstHop == e.paths[0].lasthop
    requires rq.srcSeqno <= Limit(v.own, rq.src) && rq.dstSeqno <= Limit(v.own, rq.dst) + 1
    ensures Good(Emit(n, Rreq(rq)), v)
  {
    assert EntryOk(v, rq.src, e);
    assert AdvertOf(Rreq(rq)) == Some(Advert(n.id, rq.src, e.seqno, HopField(e.adv), Some(e.paths[0].lasthop)));
    EmitGood(n, Rreq(rq), v);
  }

  lemma RebroadcastGood(n: Node, m: Request, v: View)
    requires Good(n, v) && MsgOk(Rreq(m)) && MsgWithin(Rreq(m), v.own) && m.src != n.id
    requires IsUp(n, m.src) && n.table[m.src].seqno == m.srcSeqno
    ensures Good(Rebroadcast(n, m), v)
  {
    var asked := if m.dst in n.table then Max(n.table[m.dst].seqno, m.dstSeqno) else m.dstSeqno;
    var e := Advertise(n.table[m.src]);
    var n1 := Put(n, m.src, e);
    AdvertiseOk(v, m.src, n.table[m.src]);
    PutGood(n, m.src, e, v);
    if m.ttl == 0 || e.paths == [] {
      assert Rebroadcast(n, m) == n1;
    } else {
      var rq := m.(ipSrc := n.id, dstSeqno := asked, hopCount := HopField(e.adv), firstHop := e.paths[0].lasthop);
      assert Rebroadcast(n, m) == Emit(n1, Rreq(rq));
      EmitRequestGood(n1, rq, e, v);
    }
  }

  // ---- Replies ----

  lemma AbsorbReplyGood(n: Node, m: Reply, now: real, v: View)
    requires Good(n, v) && MsgOk(Rrep(m)) && MsgWithin(Rrep(m), v.own) && AdvertOf(Rrep(m)).value in v.log
    requires m.nextHop == n.id && m.dst != n.id
    ensures var (n1, kept) := AbsorbReply(n, m, now);
      && Good(n1, v) && n1.id == n.id && n1.cfg == n.cfg
      && (kept ==> IsUp(n1, m.dst) && n1.table[m.dst].seqno == m.dstSeqno)
  {
    var n1 := EnsureEntry(n, m.dst);
    EnsureEntryGood(n, m.dst, v);
    var o := ReplyOffer(m, now);
    LearnForwardOk(v, m.dst, n1.table[m.dst], o);
    PutGood(n1, m.dst, LearnForward(n.cfg, n1.table[m.dst], o).0, v);
  }

  lemma FinishReplyGood(n: Node, m: Reply, now: real, v: View)
    requires Good(n, v) && MsgOk(Rrep(m)) && MsgWithin(Rrep(m), v.own) && m.dst != n.id
    requires IsUp(n, m.dst) && n.table[m.dst].seqno == m.dstSeqno
    ensures Good(FinishReply(n, m, now), v)
  {
    SettleGood(n, m.dst, now, v);
    if m.ipDst != n.id { RelayReplyGood(Settle(n, m.dst, now), m, now, v); }
  }

  lemma RecvReplyGood(n: Node, m: Reply, now: real, v: View)
    requires Good(n, v) && MsgOk(Rrep(m)) && MsgWithin(Rrep(m), v.own) && AdvertOf(Rrep(m)).value in v.log
    requires m.nextHop == n.id
    ensures Good(RecvReply(n, m, now), v)
  {
    if m.dst != n.id {
      AbsorbReplyGood(n, m, now, v);
      var (n1, kept) := AbsorbReply(n, m, now);
      if kept { FinishReplyGood(n1, m, now, v); }
    }
  }

  lemma RelayReplyGood(n: Node, m: Reply, now: real, v: View)
    requires Good(n, v) && MsgOk(Rrep(m)) && MsgWithin(Rrep(m), v.own) && m.dst != n.id
    requires IsUp(n, m.dst) && n.table[m.dst].seqno == m.dstSeqno
    ensures Good(RelayReply(n, m, now), v)
  {
    var f := FindId(n.ids, m.ipDst, m.bcastId);
    if f.Some? && IsUp(n, m.ipDst) && n.ids[f.value].count == 0 {
      AdvertisedGood(n, m.dst, f.value, v);
      var e := Advertise(n.table[m.dst]).(rtError := true);
      var n1 := Put(MarkReplied(n, f.value), m.dst, e);
      TouchGood(n1, m.ipDst, now, false, v);
      EmitRelayGood(Put(n1, m.ipDst, TouchHead(n1.table[m.ipDst], now)), m, e, v);
    }
  }

  lemma EmitRelayGood(n: Node, m: Reply, e: Entry, v: View)
    requires Good(n, v) && MsgOk(Rrep(m)) && MsgWithin(Rrep(m), v.own) && m.dst != n.id
    requires IsUp(n, m.ipDst) && m.dst in n.table && n.table[m.dst].seqno == m.dstSeqno == e.seqno
    requires EntryOk(v, m.dst, e) && e.paths != [] && e.adv.Some?
    requires StillTrue(n.table[m.dst], Advert(n.id, m.dst, e.seqno, HopField(e.adv), Some(e.paths[0].lasthop)))
    ensures Good(EmitRelay(n, m, e), v)
  {
    if m.ttl != 0 {
      EmitGood(n, Rrep(m.(nextHop := n.table[m.ipDst].paths[0].nexthop, rpSrc := n.id, hopCount := HopField(e.adv),
                          firstHop := e.paths[0].lasthop)), v);
    }
  }

  lemma HearNeighborGood(n: Node, a: Addr, now: real, v: View)
    requires Good(n, v)
    ensures Good(HearNeighbor(n, a, now), v)
  {
    FrameGood(n, HearNeighbor(n, a, now), v);
  }

  // ---- Errors and link failures ----

  /** What an error message may say: odd numbers or zero, within one of the destination's own. */
  ghost predicate NoticesOk(v: View, told: seq<(Addr, nat)>) {
    forall k | 0 <= k < |told| ::
      (told[k].1 == 0 || told[k].1 % 2 == 1) && told[k].1 <= Limit(v.own, told[k].0) + 1
  }

  lemma {:induction false} ErrorAllGood(n: Node, from: Addr, dests: seq<(Addr, nat)>, v: View)
    requires Good(n, v) && NoticesOk(v, dests)
    ensures var (n', told) := ErrorAll(n, from, dests);
      Good(n', v) && NoticesOk(v, told)
    decreases |dests|
  {
    if dests != [] {
      var last := |dests| - 1;
      ErrorAllGood(n, from, dests[..last], v);
      var (n1, told) := ErrorAll(n, from, dests[..last]);
      var (d, s) := dests[last];
      if d in n1.table {
        var e := ErrorRoute(n1.table[d], from, s);
        ErrorRouteOk(v, d, n1.table[d], from, s);
        PutGood(n1, d, e, v);
      }
    }
  }

  lemma {:induction false} FailAllGood(n: Node, id: Addr, ds: seq<Addr>, v: View)
    requires Good(n, v)
    ensures var (n', told) := FailAll(n, id, ds);
      Good(n', v) && NoticesOk(v, told)
    decreases |ds|
  {
    if ds != [] {
      var last := |ds| - 1;
      FailAllGood(n, id, ds[..last], v);
      var (n1, told) := FailAll(n, id, ds[..last]);
      var d := ds[last];
      if d in n1.table {
        var e := FailRoute(n1.table[d], id);
        FailRouteOk(v, d, n1.table[d], id);
        PutGood(n1, d, e, v);
      }
    }
  }

  lemma LinkFailureGood(n: Node, id: Addr, v: View)
    requires Good(n, v)
    ensures Good(LinkFailure(n, id), v)
  {
    FailAllGood(n, id, n.order, v);
    var (n1, told) := FailAll(n, id, n.order);
    if told != [] {
      EmitGood(n1, Rerr(Error(n1.id, 1, told)), v);
    }
  }

  // ---- Neighbours ----

  lemma SalvageOneGood(n: Node, p: Pkt, now: real, v: View)
    requires Good(n, v)
    ensures Good(SalvageOne(n, p, now), v)
  {
    if p.isData && IsUp(n, p.dst) && p.salvage < MAX_SALVAGE_COUNT {
      var q := p.(salvage := p.salvage + 1);
      ForwardGood(n, p.dst, q, now, v);
      assert SalvageOne(n, p, now) == Forward(n, p.dst, q, now);
    } else {
      DataOutGood(n, Dropped(p), v);
    }
  }

  lemma QueueGood(n: Node, ifq: seq<Pkt>, v: View)
    requires Good(n, v)
    ensures Good(n.(ifq := ifq), v)
  {
    FrameGood(n, n.(ifq := ifq), v);
  }

  lemma {:induction false} SalvageGood(n: Node, id: Addr, now: real, v: View)
    requires Good(n, v)
    ensures Good(Salvage(n, id, now), v)
    decreases |n.ifq|
  {
    var f := FindNextHop(n.ifq, id);
    if f.Some? {
      QueueGood(n, RemoveAt(n.ifq, f.value), v);
      SalvageOneGood(n.(ifq := RemoveAt(n.ifq, f.value)), n.ifq[f.value], now, v);
      SalvageGood(SalvageOne(n.(ifq := RemoveAt(n.ifq, f.value)), n.ifq[f.value], now), id, now, v);
    }
  }

  lemma NeighborsGood(n: Node, nbrs: seq<Neighbor>, v: View)
    requires Good(n, v) && UniqueNeighbors(nbrs)
    ensures Good(n.(nbrs := nbrs), v)
  {
    FrameGood(n, n.(nbrs := nbrs), v);
  }

  lemma WithoutNeighborUnique(nbrs: seq<Neighbor>, a: Addr)
    requires UniqueNeighbors(nbrs)
    ensures UniqueNeighbors(WithoutNeighbor(nbrs, a))
  {
  }

  lemma WithoutNeighborGood(n: Node, a: Addr, v: View)
    requires Good(n, v)
    ensures Good(n.(seqno := n.seqno + 2, nbrs := WithoutNeighbor(n.nbrs, a)), v)
  {
    WithoutNeighborUnique(n.nbrs, a);
    BumpNeighborsGood(n, WithoutNeighbor(n.nbrs, a), v);
  }

  lemma BumpNeighborsGood(n: Node, nbrs: seq<Neighbor>, v: View)
    requires Good(n, v) && UniqueNeighbors(nbrs)
    ensures Good(n.(seqno := n.seqno + 2, nbrs := nbrs), v)
  {
    var n1 := n.(seqno := n.seqno + 2);
    assert n1.(nbrs := nbrs) == n.(seqno := n.seqno + 2, nbrs := nbrs);
    BumpGood(n, n.seqno + 2, v);
    NeighborsGood(n1, nbrs, v);
  }

  lemma LoseNeighborGood(n: Node, a: Addr, now: real, v: View)
    requires Good(n, v)
    ensures Good(LoseNeighbor(n, a, now), v)
  {
    var n1 := n.(seqno := n.seqno + 2, nbrs := WithoutNeighbor(n.nbrs, a));
    WithoutNeighborGood(n, a, v);
    LinkFailureGood(n1, a, v);
    SalvageGood(LinkFailure(n1, a), a, now, v);
  }

  lemma {:induction false} LoseExpiredGood(n: Node, nbrs: seq<Neighbor>, now: real, v: View)
    requires Good(n, v)
    ensures Good(LoseExpired(n, nbrs, now), v)
    decreases |nbrs|
  {
    if nbrs != [] {
      var last := |nbrs| - 1;
      LoseExpiredGood(n, nbrs[..last], now, v);
      LoseNeighborGood(LoseExpired(n, nbrs[..last], now), nbrs[last].addr, now, v);
    }
  }

  // ---- Route purge ----

  lemma PurgeRouteGood(n: Node, d: Addr, now: real, v: View)
    requires Good(n, v)
    ensures Good(PurgeRoute(n, d, now), v)
  {
    if d in n.table {
      var e := n.table[d];
      if e.flags.Up? && e.expire < now {
        var e1 := ExpireRoute(e, now);
        ExpireRouteOk(v, d, e, now);
        PutGood(n, d, e1, v);
        if e1.flags.Down? { DrainGood(Put(n, d, e1), d, now, v); }
      } else if e.flags.Up? {
        FlushGood(n, d, now, v);
      } else if FindDst(n.buffer.q, d).Some? {
        SendRequestGood(n, d, now, v);
      }
    }
  }

  lemma {:induction false} PurgeRoutesGood(n: Node, ds: seq<Addr>, now: real, v: View)
    requires Good(n, v)
    ensures Good(PurgeRoutes(n, ds, now), v)
    decreases |ds|
  {
    if ds != [] {
      var last := |ds| - 1;
      PurgeRoutesGood(n, ds[..last], now, v);
      PurgeRouteGood(PurgeRoutes(n, ds[..last], now), ds[last], now, v);
    }
  }

  // ---- Every handler ----

  /** The event can happen at `n`: a received message is well formed, reached its next hop,
      and advertises only what its sender has said. */
  ghost predicate Possible(n: Node, ev: Event, v: View) {
    ev.Receive? ==>
      && MsgOk(ev.m) && LiveTtl(ev.m) && MsgWithin(ev.m, v.own)
      && Addressed(ev.m, n.id) && Adverts(ev.m) <= v.log
  }

  lemma RecvHelloGood(n: Node, m: Greeting, now: real, v: View)
    requires Good(n, v) && MsgOk(Hello(m)) && MsgWithin(Hello(m), v.own) && AdvertOf(Hello(m)).value in v.log
    ensures Good(RecvHello(n, m, now), v)
  {
    HearNeighborGood(n, m.dst, now, v);
    RecvReplyGood(HearNeighbor(n, m.dst, now), HelloReply(n.id, m), now, v);
  }

  lemma RecvErrorGood(n: Node, m: Error, v: View)
    requires Good(n, v) && MsgOk(Rerr(m)) && MsgWithin(Rerr(m), v.own)
    ensures Good(RecvError(n, m), v)
  {
    ErrorAllGood(n, m.ipSrc, m.dests, v);
    var (n1, told) := ErrorAll(n, m.ipSrc, m.dests);
    if told != [] { EmitGood(n1, Rerr(Error(n1.id, 1, told)), v); }
  }

  lemma RecvDataGood(n: Node, p: Pkt, isNew: bool, now: real, v: View)
    requires Good(n, v)
    ensures Good(RecvData(n, p, isNew, now), v)
  {
    match Admit(n.id, p, isNew)
    case None => DataOutGood(n, Dropped(p), v);
    case Some(q) => ResolveGood(n, q, now, v);
  }

  lemma SendHelloGood(n: Node, v: View)
    requires Good(n, v)
    ensures Good(SendHello(n), v)
  {
    EmitGood(n, Hello(Greeting(n.id, 1, n.id, n.seqno, (1.0 + ALLOWED_HELLO_LOSS) * HELLO_INTERVAL)), v);
  }

  lemma IdPurgeGood(n: Node, now: real, v: View)
    requires Good(n, v)
    ensures Good(IdPurge(n, now), v)
  {
    LiveIdsUnique(n.ids, now);
    var n' := IdPurge(n, now);
    forall a | a in n'.said ensures Honest(n', a) {
      assert Honest(n, a);
    }
  }

  lemma HandleMessageGood(n: Node, m: Msg, now: real, v: View)
    requires Good(n, v) && MsgOk(m) && MsgWithin(m, v.own) && Addressed(m, n.id) && Adverts(m) <= v.log
    ensures Good(HandleMessage(n, m, now), v)
  {
    match m
    case Rreq(rq) => RecvRequestGood(n, rq, now, v);
    case Rrep(rp) => RecvReplyGood(n, rp, now, v);
    case Hello(hi) => RecvHelloGood(n, hi, now, v);
    case Rerr(re) => RecvErrorGood(n, re, v);
  }

  lemma TimerGood(n: Node, t: Timer, now: real, v: View)
    requires Good(n, v)
    ensures Good(HandleTimer(n, t, now), v)
  {
    match t
    case HelloTime => SendHelloGood(n, v);
    case IdTime => IdPurgeGood(n, now, v);
    case NeighborTime => LoseExpiredGood(n, n.nbrs, now, v);
    case RouteTime => PurgeRoutesGood(n, n.order, now, v);
  }

  lemma HandleKeepsGood(n: Node, ev: Event, now: real, v: View)
    requires Good(n, v) && Possible(n, ev, v)
    ensures Good(Handle(n, ev, now), v)
  {
    match ev
    case Receive(m) => HandleMessageGood(n, AfterHop(m), now, v);
    case Data(p, isNew) => RecvDataGood(n, p, isNew, now, v);
    case Queue(ifq) => QueueGood(n, ifq, v);
    case Tick(t) => TimerGood(n, t, now, v);
  }
}

/** How often a node may ask for a route while the route stays down. */
module RequestBudget {
  import opened Basics
  import opened Routes
  import opened Nodes
  import opened NodeInvariant
  import opened Outbox

  datatype Outcome = Silent | GaveUp | Asked(ttl: nat)

  /** One call of sendRequest, as far as the entry of a route that is down is concerned. */
  function TryRequest(e: Entry, now: real): (Entry, Outcome) {
    if e.reqTimeout > now then (e, Silent)
    else if e.reqCnt > RREQ_RETRIES then (GiveUp(e, now), GaveUp)
    else
      var e1 := NextAttempt(e, now);
      (e1, Asked(e1.reqTtl))
  }

  /** sendRequest does to the entry what TryRequest says, and sends an RREQ exactly when it asks. */
  lemma SendRequestTries(n: Node, d: Addr, now: real)
    requires d in n.table && n.table[d].flags.Down?
    ensures var r := SendRequest(n, d, now);
      var (e, o) := TryRequest(n.table[d], now);
      && r.table == n.table[d := e]
      && if o.Asked? then
           exists m :: Sent(r.out) == Sent(n.out) + [m] &&
                       m.Rreq? && m.rq.dst == d && m.rq.src == n.id && m.rq.ttl == o.ttl
         else Sent(r.out) == Sent(n.out)
  {
    var (e, o) := TryRequest(n.table[d], now);
    if o.GaveUp? {
      DrainSent(Put(n, d, e), d, now);
    } else if o.Asked? {
      var n1 := Put(n, d, e).(bid := n.bid + 1, seqno := n.seqno + 2);
      EmitSent(n1, Rreq(Request(n.id, e.reqTtl, 0, n.bid, d, e.seqno, n.id, n1.seqno, 0)));
    }
  }

  /** Calls at the given times, while the route stays down. */
  function Period(e: Entry, times: seq<real>): (r: (Entry, seq<Outcome>))
    ensures |r.1| == |times|
  {
    if times == [] then (e, [])
    else
      var last := |times| - 1;
      var (e1, os) := Period(e, times[..last]);
      var (e2, o) := TryRequest(e1, times[last]);
      (e2, os + [o])
  }

  // ---- Expanding ring ----

  /** Where the next ring starts. */
  function Base(e: Entry): nat {
    Max(e.reqTtl, e.lastHops)
  }

  /** How many ring-limited requests are still possible. */
  function RingsLeft(base: nat): nat {
    if base == 0 then 2 else if base >= TTL_THRESHOLD then 0 else (8 - base) / 2
  }

  function Rings(os: seq<Outcome>): nat {
    if os == [] then 0
    else
      var last := |os| - 1;
      Rings(os[..last]) + if os[last].Asked? && os[last].ttl != NETWORK_DIAMETER then 1 else 0
  }

  function WideRequests(os: seq<Outcome>): nat {
    if os == [] then 0
    else
      var last := |os| - 1;
      WideRequests(os[..last]) + if os[last] == Asked(NETWORK_DIAMETER) then 1 else 0
  }

  /** One call never lowers the base, and each ring-limited request uses up one ring. */
  ghost predicate OneRing(e: Entry, e': Entry, o: Outcome) {
    && e'.reqTtl <= NETWORK_DIAMETER && Base(e') >= Base(e)
    && (o.Asked? ==> o.ttl == e'.reqTtl)
    && if o.Asked? && Base(e) < TTL_THRESHOLD
       then Base(e) < o.ttl < NETWORK_DIAMETER && RingsLeft(Base(e')) < RingsLeft(Base(e))
       else RingsLeft(Base(e')) <= RingsLeft(Base(e)) && (o.Asked? ==> o.ttl == NETWORK_DIAMETER)
  }

  lemma AttemptBase(e: Entry, now: real)
    requires e.reqTtl <= NETWORK_DIAMETER
    ensures OneRing(e, NextAttempt(e, now), Asked(NextTtl(e)))
  {
    var e' := NextAttempt(e, now);
    assert e'.reqTtl == NextTtl(e) && e'.lastHops == e.lastHops;
  }

  lemma TryBase(e: Entry, now: real)
    requires e.reqTtl <= NETWORK_DIAMETER
    ensures OneRing(e, TryRequest(e, now).0, TryRequest(e, now).1)
  {
    if e.reqTimeout <= now && e.reqCnt <= RREQ_RETRIES { AttemptBase(e, now); }
  }

  /** What a series of calls has done to the rings. */
  ghost predicate RingsUsed(e: Entry, e': Entry, os: seq<Outcome>) {
    && e'.reqTtl <= NETWORK_DIAMETER && Base(e') >= Base(e)
    && Rings(os) + RingsLeft(Base(e')) <= RingsLeft(Base(e))
    && (Base(e) >= TTL_THRESHOLD ==> forall k | 0 <= k < |os| && os[k].Asked? :: os[k].ttl == NETWORK_DIAMETER)
  }

  lemma RingsNext(e: Entry, e1: Entry, os: seq<Outcome>, e2: Entry, o: Outcome)
    requires RingsUsed(e, e1, os) && OneRing(e1, e2, o)
    ensures RingsUsed(e, e2, os + [o])
  {
    assert (os + [o])[..|os|] == os;
  }

  lemma {:induction false} PeriodRings(e: Entry, times: seq<real>)
    requires e.reqTtl <= NETWORK_DIAMETER
    ensures RingsUsed(e, Period(e, times).0, Period(e, times).1)
    decreases |times|
  {
    if times != [] {
      var last := |times| - 1;
      PeriodRings(e, times[..last]);
      var (e1, os) := Period(e, times[..last]);
      var (e2, o) := TryRequest(e1, times[last]);
      TryBase(e1, times[last]);
      RingsNext(e, e1, os, e2, o);
    }
  }

  /** At most 3 ring-limited requests go out, whatever the entry's state was. */
  lemma AtMostThreeRings(e: Entry, times: seq<real>)
    requires e.reqTtl <= NETWORK_DIAMETER
    ensures Rings(Period(e, times).1) <= 3
  {
    PeriodRings(e, times);
  }

  /** TTLs never decrease, so ring-limited requests all come before network-wide ones. */
  lemma {:induction false} TtlsNeverDecrease(e: Entry, times: seq<real>, i: nat, j: nat)
    requires e.reqTtl <= NETWORK_DIAMETER
    requires i < j < |times| && Period(e, times).1[i].Asked? && Period(e, times).1[j].Asked?
    ensures Period(e, times).1[i].ttl <= Period(e, times).1[j].ttl
    decreases |times|
  {
    var last := |times| - 1;
    var (e1, os) := Period(e, times[..last]);
    if j < last {
      TtlsNeverDecrease(e, times[..last], i, j);
    } else {
      PeriodTop(e, times[..last], i);
      PeriodRings(e, times[..last]);
      TryBase(e1, times[last]);
    }
  }

  lemma {:induction false} PeriodTop(e: Entry, times: seq<real>, i: nat)
    requires e.reqTtl <= NETWORK_DIAMETER && i < |times| && Period(e, times).1[i].Asked?
    ensures var (e', os) := Period(e, times);
      os[i].ttl <= NETWORK_DIAMETER && os[i].ttl <= e'.reqTtl && os[i].ttl <= Base(e')
    decreases |times|
  {
    var last := |times| - 1;
    var (e1, os) := Period(e, times[..last]);
    PeriodRings(e, times[..last]);
    TryBase(e1, times[last]);
    if i < last { PeriodTop(e, times[..last], i); }
  }

  // ---- Give-ups ----

  /** Until the node gives up, at most RREQ_RETRIES + 1 network-wide requests go out. */
  lemma {:induction false} WideUntilGiveUp(e: Entry, times: seq<real>)
    requires e.reqCnt <= RREQ_RETRIES + 1 && e.reqTtl <= NETWORK_DIAMETER
    requires forall k | 0 <= k < |times| :: !Period(e, times).1[k].GaveUp?
    ensures var (e', os) := Period(e, times);
      e.reqCnt + WideRequests(os) == e'.reqCnt <= RREQ_RETRIES + 1
    decreases |times|
  {
    if times != [] {
      var last := |times| - 1;
      var (e1, os) := Period(e, times[..last]);
      assert Period(e, times).1[..last] == os;
      assert forall k | 0 <= k < last :: os[k] == Period(e, times).1[k];
      WideUntilGiveUp(e, times[..last]);
      PeriodRings(e, times[..last]);
      TryBase(e1, times[last]);
    }
  }

  /** After a give-up every request is network-wide. */
  lemma WideAfterGiveUp(e: Entry, now: real, times: seq<real>)
    requires RequestState(e) && TryRequest(e, now).1.GaveUp?
    ensures var (e', os) := Period(TryRequest(e, now).0, times);
      forall k | 0 <= k < |os| && os[k].Asked? :: os[k].ttl == NETWORK_DIAMETER
  {
    PeriodRings(TryRequest(e, now).0, times);
  }

  // ---- Spacing ----

  lemma WideWait(cnt: nat)
    requires cnt >= 1
    ensures 2.0 * NETWORK_DIAMETER as real * NODE_TRAVERSAL_TIME * cnt as real > MAX_RREQ_TIMEOUT
  {
    assert 2.0 * NETWORK_DIAMETER as real * NODE_TRAVERSAL_TIME == 1.8;
    assert 1.8 * cnt as real >= 1.8;
  }

  lemma NoLatency(e: Entry)
    requires e.latency == NO_LATENCY
    ensures PerHopTime(e) == NODE_TRAVERSAL_TIME
  {
    assert NO_LATENCY[..2][..1][..0] == [];
    assert SumPositive(NO_LATENCY[..2][..1]).0 == 0;
    assert SumPositive(NO_LATENCY[..2]).0 == 0;
  }

  /** No wait is longer than MAX_RREQ_TIMEOUT, and after a network-wide request it is exactly that. */
  lemma TryTimeout(e: Entry, now: real)
    requires e.latency == NO_LATENCY
    ensures var (e', o) := TryRequest(e, now);
      && e'.latency == NO_LATENCY
      && e.reqTimeout <= e'.reqTimeout
      && (o.Asked? || o.GaveUp? ==> e.reqTimeout <= now && now < e'.reqTimeout <= now + MAX_RREQ_TIMEOUT)
      && (o == Asked(NETWORK_DIAMETER) ==> e'.reqTimeout == now + MAX_RREQ_TIMEOUT)
  {
    NoLatency(e);
    WideWait(e.reqCnt + 1);
  }

  lemma {:induction false} TimeoutHolds(e: Entry, times: seq<real>, i: nat)
    requires e.latency == NO_LATENCY && i < |times| && Period(e, times).1[i] == Asked(NETWORK_DIAMETER)
    ensures var (e', os) := Period(e, times); e'.latency == NO_LATENCY && times[i] + MAX_RREQ_TIMEOUT <= e'.reqTimeout
    decreases |times|
  {
    var last := |times| - 1;
    LatencyKept(e, times[..last]);
    TryTimeout(Period(e, times[..last]).0, times[last]);
    if i < last { TimeoutHolds(e, times[..last], i); }
  }

  lemma {:induction false} LatencyKept(e: Entry, times: seq<real>)
    ensures Period(e, times).0.latency == e.latency
    decreases |times|
  {
    if times != [] { LatencyKept(e, times[..|times| - 1]); }
  }

  /** After a network-wide request nothing more is asked, and nothing given up, for at least one second. */
  lemma {:induction false} WideSpacing(e: Entry, times: seq<real>, i: nat, j: nat)
    requires e.latency == NO_LATENCY && i < j < |times|
    requires Period(e, times).1[i] == Asked(NETWORK_DIAMETER) && !Period(e, times).1[j].Silent?
    ensures times[j] >= times[i] + MAX_RREQ_TIMEOUT
    decreases |times|
  {
    var last := |times| - 1;
    var init := times[..last];
    if j < last {
      WideSpacing(e, init, i, j);
    } else {
      TimeoutHolds(e, init, i);
      TryTimeout(Period(e, init).0, times[last]);
    }
  }
}
